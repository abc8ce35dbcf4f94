/**
  * The blinker on a 5 x 5 Moore wraparound grid: a line of three live cells
  * through the centre alternates between horizontal and vertical, so it is
  * back where it started after two generations.
  *
  * The proof goes cell by cell: each cell's neighbour list is evaluated on
  * its own, the generation is unfolded at that cell, and its live neighbours
  * are counted in both phases. Each cell gets its own small lemmas because
  * one quantified statement over all 25 cells (through the closed form of
  * Topology.NeighborAt) costs the solver far more than these 25 small proofs.
  */
module Blinker {
  import opened JavaBase
  import opened ConwayRule
  import opened Topology
  import opened Generation

  /** The 5 x 5 grid (row-major, index y * 5 + x) whose live cells are `alive`. */
  function Grid(alive: set<nat>): (s: seq<bool>)
    ensures |s| == 25
  {
    seq(25, i => i in alive)
  }

  /** Cells (1, 2), (2, 2), (3, 2) alive. */
  function Horizontal(): seq<bool> {
    Grid({11, 12, 13})
  }

  /** Cells (2, 1), (2, 2), (2, 3) alive. */
  function Vertical(): seq<bool> {
    Grid({7, 12, 17})
  }

  /** Cell i holds the vertical phase after a step from the horizontal one, and the other way round. */
  ghost predicate Flips(i: nat)
    requires i < 25
  {
    WellWired(Wiring(5, 5, Moore), 25) &&
    StepState(Horizontal(), Wiring(5, 5, Moore))[i] == Vertical()[i] &&
    StepState(Vertical(), Wiring(5, 5, Moore))[i] == Horizontal()[i]
  }

  /** On a 5 x 5 Moore grid the horizontal blinker turns vertical in one generation and back in the next. */
  lemma BlinkerOscillates()
    ensures WellWired(Wiring(5, 5, Moore), 25)
    ensures StepState(Horizontal(), Wiring(5, 5, Moore)) == Vertical()
    ensures StepState(Vertical(), Wiring(5, 5, Moore)) == Horizontal()
    ensures Generations(Horizontal(), Wiring(5, 5, Moore), 2) == Horizontal()
  {
    WiringShape(5, 5, Moore);
    Cell0();
    Cell1();
    Cell2();
    Cell3();
    Cell4();
    Cell5();
    Cell6();
    Cell7();
    Cell8();
    Cell9();
    Cell10();
    Cell11();
    Cell12();
    Cell13();
    Cell14();
    Cell15();
    Cell16();
    Cell17();
    Cell18();
    Cell19();
    Cell20();
    Cell21();
    Cell22();
    Cell23();
    Cell24();
    var w := Wiring(5, 5, Moore);
    Agree25(StepState(Horizontal(), w), Vertical());
    Agree25(StepState(Vertical(), w), Horizontal());
  }

  /** Two 25-entry lists that agree at every index, checked index by index, are equal. */
  lemma Agree25(a: seq<bool>, b: seq<bool>)
    requires |a| == 25 && |b| == 25
    requires a[0] == b[0] && a[1] == b[1] && a[2] == b[2] && a[3] == b[3] && a[4] == b[4]
    requires a[5] == b[5] && a[6] == b[6] && a[7] == b[7] && a[8] == b[8] && a[9] == b[9]
    requires a[10] == b[10] && a[11] == b[11] && a[12] == b[12] && a[13] == b[13] && a[14] == b[14]
    requires a[15] == b[15] && a[16] == b[16] && a[17] == b[17] && a[18] == b[18] && a[19] == b[19]
    requires a[20] == b[20] && a[21] == b[21] && a[22] == b[22] && a[23] == b[23] && a[24] == b[24]
    ensures a == b
  {
    forall i | 0 <= i < 25
      ensures a[i] == b[i]
    {
      assert i in {0, 1, 2, 3, 4, 5, 6, 7, 8, 9, 10, 11, 12, 13, 14, 15, 16, 17, 18, 19, 20, 21, 22, 23, 24};
    }
  }

  /** One generation at cell i is the rule applied to the cell and the given neighbour list. */
  lemma StepThrough(i: nat, ns: seq<nat>)
    requires i < 25 && NeighborIndices(5, 5, Moore, i) == ns
    ensures WellWired(Wiring(5, 5, Moore), 25)
    ensures StepState(Horizontal(), Wiring(5, 5, Moore))[i] == ConwayNext(Horizontal()[i], Gather(Horizontal(), ns))
    ensures StepState(Vertical(), Wiring(5, 5, Moore))[i] == ConwayNext(Vertical()[i], Gather(Vertical(), ns))
  {
    WiringShape(5, 5, Moore);
  }

  /** The number of live entries of a 4-entry list, written out entry by entry. */
  lemma CountAlive4(s: seq<bool>)
    requires |s| == 4
    ensures CountAlive(s) == Bit(s[0]) + Bit(s[1]) + Bit(s[2]) + Bit(s[3])
  {
    assert s[..3][..2] == s[..2] && s[..2][..1] == s[..1] && s[..1][..0] == [];
    assert CountAlive(s[..1]) == Bit(s[0]);
    assert CountAlive(s[..2]) == CountAlive(s[..1]) + Bit(s[1]);
    assert CountAlive(s[..3]) == CountAlive(s[..2]) + Bit(s[2]);
  }

  /** The number of live entries of an 8-entry list, written out entry by entry. */
  lemma CountAlive8(s: seq<bool>)
    requires |s| == 8
    ensures CountAlive(s) == Bit(s[0]) + Bit(s[1]) + Bit(s[2]) + Bit(s[3]) + Bit(s[4]) + Bit(s[5]) + Bit(s[6]) + Bit(s[7])
  {
    var a, b := s[..4], s[4..];
    assert s == a + b;
    CountAliveAppend(a, b);
    CountAlive4(a);
    CountAlive4(b);
  }

  function Bit(b: bool): nat {
    if b then 1 else 0
  }

  lemma Cell0()
    ensures Flips(0)
  {
    Neighbors0();
    StepThrough(0, [4, 9, 5, 6, 1, 21, 20, 24]);
    Count0();
  }

  lemma Neighbors0()
    ensures NeighborIndices(5, 5, Moore, 0) == [4, 9, 5, 6, 1, 21, 20, 24]
  {
    assert GetNeighbor(5, 5, 0, -1, 0) == Success(4);
    assert GetNeighbor(5, 5, 0, -1, 1) == Success(9);
    assert GetNeighbor(5, 5, 0, 0, 1) == Success(5);
    assert GetNeighbor(5, 5, 0, 1, 1) == Success(6);
    assert GetNeighbor(5, 5, 0, 1, 0) == Success(1);
    assert GetNeighbor(5, 5, 0, 1, -1) == Success(21);
    assert GetNeighbor(5, 5, 0, 0, -1) == Success(20);
    assert GetNeighbor(5, 5, 0, -1, -1) == Success(24);
  }

  lemma Count0()
    ensures ConwayNext(Horizontal()[0], Gather(Horizontal(), [4, 9, 5, 6, 1, 21, 20, 24])) == Vertical()[0]
    ensures ConwayNext(Vertical()[0], Gather(Vertical(), [4, 9, 5, 6, 1, 21, 20, 24])) == Horizontal()[0]
  {
    CountAlive8(Gather(Horizontal(), [4, 9, 5, 6, 1, 21, 20, 24]));
    CountAlive8(Gather(Vertical(), [4, 9, 5, 6, 1, 21, 20, 24]));
  }

  lemma Cell1()
    ensures Flips(1)
  {
    Neighbors1();
    StepThrough(1, [0, 5, 6, 7, 2, 22, 21, 20]);
    Count1();
  }

  lemma Neighbors1()
    ensures NeighborIndices(5, 5, Moore, 1) == [0, 5, 6, 7, 2, 22, 21, 20]
  {
    assert GetNeighbor(5, 5, 1, -1, 0) == Success(0);
    assert GetNeighbor(5, 5, 1, -1, 1) == Success(5);
    assert GetNeighbor(5, 5, 1, 0, 1) == Success(6);
    assert GetNeighbor(5, 5, 1, 1, 1) == Success(7);
    assert GetNeighbor(5, 5, 1, 1, 0) == Success(2);
    assert GetNeighbor(5, 5, 1, 1, -1) == Success(22);
    assert GetNeighbor(5, 5, 1, 0, -1) == Success(21);
    assert GetNeighbor(5, 5, 1, -1, -1) == Success(20);
  }

  lemma Count1()
    ensures ConwayNext(Horizontal()[1], Gather(Horizontal(), [0, 5, 6, 7, 2, 22, 21, 20])) == Vertical()[1]
    ensures ConwayNext(Vertical()[1], Gather(Vertical(), [0, 5, 6, 7, 2, 22, 21, 20])) == Horizontal()[1]
  {
    CountAlive8(Gather(Horizontal(), [0, 5, 6, 7, 2, 22, 21, 20]));
    CountAlive8(Gather(Vertical(), [0, 5, 6, 7, 2, 22, 21, 20]));
  }

  lemma Cell2()
    ensures Flips(2)
  {
    Neighbors2();
    StepThrough(2, [1, 6, 7, 8, 3, 23, 22, 21]);
    Count2();
  }

  lemma Neighbors2()
    ensures NeighborIndices(5, 5, Moore, 2) == [1, 6, 7, 8, 3, 23, 22, 21]
  {
    assert GetNeighbor(5, 5, 2, -1, 0) == Success(1);
    assert GetNeighbor(5, 5, 2, -1, 1) == Success(6);
    assert GetNeighbor(5, 5, 2, 0, 1) == Success(7);
    assert GetNeighbor(5, 5, 2, 1, 1) == Success(8);
    assert GetNeighbor(5, 5, 2, 1, 0) == Success(3);
    assert GetNeighbor(5, 5, 2, 1, -1) == Success(23);
    assert GetNeighbor(5, 5, 2, 0, -1) == Success(22);
    assert GetNeighbor(5, 5, 2, -1, -1) == Success(21);
  }

  lemma Count2()
    ensures ConwayNext(Horizontal()[2], Gather(Horizontal(), [1, 6, 7, 8, 3, 23, 22, 21])) == Vertical()[2]
    ensures ConwayNext(Vertical()[2], Gather(Vertical(), [1, 6, 7, 8, 3, 23, 22, 21])) == Horizontal()[2]
  {
    CountAlive8(Gather(Horizontal(), [1, 6, 7, 8, 3, 23, 22, 21]));
    CountAlive8(Gather(Vertical(), [1, 6, 7, 8, 3, 23, 22, 21]));
  }

  lemma Cell3()
    ensures Flips(3)
  {
    Neighbors3();
    StepThrough(3, [2, 7, 8, 9, 4, 24, 23, 22]);
    Count3();
  }

  lemma Neighbors3()
    ensures NeighborIndices(5, 5, Moore, 3) == [2, 7, 8, 9, 4, 24, 23, 22]
  {
    assert GetNeighbor(5, 5, 3, -1, 0) == Success(2);
    assert GetNeighbor(5, 5, 3, -1, 1) == Success(7);
    assert GetNeighbor(5, 5, 3, 0, 1) == Success(8);
    assert GetNeighbor(5, 5, 3, 1, 1) == Success(9);
    assert GetNeighbor(5, 5, 3, 1, 0) == Success(4);
    assert GetNeighbor(5, 5, 3, 1, -1) == Success(24);
    assert GetNeighbor(5, 5, 3, 0, -1) == Success(23);
    assert GetNeighbor(5, 5, 3, -1, -1) == Success(22);
  }

  lemma Count3()
    ensures ConwayNext(Horizontal()[3], Gather(Horizontal(), [2, 7, 8, 9, 4, 24, 23, 22])) == Vertical()[3]
    ensures ConwayNext(Vertical()[3], Gather(Vertical(), [2, 7, 8, 9, 4, 24, 23, 22])) == Horizontal()[3]
  {
    CountAlive8(Gather(Horizontal(), [2, 7, 8, 9, 4, 24, 23, 22]));
    CountAlive8(Gather(Vertical(), [2, 7, 8, 9, 4, 24, 23, 22]));
  }

  lemma Cell4()
    ensures Flips(4)
  {
    Neighbors4();
    StepThrough(4, [3, 8, 9, 5, 0, 20, 24, 23]);
    Count4();
  }

  lemma Neighbors4()
    ensures NeighborIndices(5, 5, Moore, 4) == [3, 8, 9, 5, 0, 20, 24, 23]
  {
    assert GetNeighbor(5, 5, 4, -1, 0) == Success(3);
    assert GetNeighbor(5, 5, 4, -1, 1) == Success(8);
    assert GetNeighbor(5, 5, 4, 0, 1) == Success(9);
    assert GetNeighbor(5, 5, 4, 1, 1) == Success(5);
    assert GetNeighbor(5, 5, 4, 1, 0) == Success(0);
    assert GetNeighbor(5, 5, 4, 1, -1) == Success(20);
    assert GetNeighbor(5, 5, 4, 0, -1) == Success(24);
    assert GetNeighbor(5, 5, 4, -1, -1) == Success(23);
  }

  lemma Count4()
    ensures ConwayNext(Horizontal()[4], Gather(Horizontal(), [3, 8, 9, 5, 0, 20, 24, 23])) == Vertical()[4]
    ensures ConwayNext(Vertical()[4], Gather(Vertical(), [3, 8, 9, 5, 0, 20, 24, 23])) == Horizontal()[4]
  {
    CountAlive8(Gather(Horizontal(), [3, 8, 9, 5, 0, 20, 24, 23]));
    CountAlive8(Gather(Vertical(), [3, 8, 9, 5, 0, 20, 24, 23]));
  }

  lemma Cell5()
    ensures Flips(5)
  {
    Neighbors5();
    StepThrough(5, [9, 14, 10, 11, 6, 1, 0, 4]);
    Count5();
  }

  lemma Neighbors5()
    ensures NeighborIndices(5, 5, Moore, 5) == [9, 14, 10, 11, 6, 1, 0, 4]
  {
    assert GetNeighbor(5, 5, 5, -1, 0) == Success(9);
    assert GetNeighbor(5, 5, 5, -1, 1) == Success(14);
    assert GetNeighbor(5, 5, 5, 0, 1) == Success(10);
    assert GetNeighbor(5, 5, 5, 1, 1) == Success(11);
    assert GetNeighbor(5, 5, 5, 1, 0) == Success(6);
    assert GetNeighbor(5, 5, 5, 1, -1) == Success(1);
    assert GetNeighbor(5, 5, 5, 0, -1) == Success(0);
    assert GetNeighbor(5, 5, 5, -1, -1) == Success(4);
  }

  lemma Count5()
    ensures ConwayNext(Horizontal()[5], Gather(Horizontal(), [9, 14, 10, 11, 6, 1, 0, 4])) == Vertical()[5]
    ensures ConwayNext(Vertical()[5], Gather(Vertical(), [9, 14, 10, 11, 6, 1, 0, 4])) == Horizontal()[5]
  {
    CountAlive8(Gather(Horizontal(), [9, 14, 10, 11, 6, 1, 0, 4]));
    CountAlive8(Gather(Vertical(), [9, 14, 10, 11, 6, 1, 0, 4]));
  }

  lemma Cell6()
    ensures Flips(6)
  {
    Neighbors6();
    StepThrough(6, [5, 10, 11, 12, 7, 2, 1, 0]);
    Count6();
  }

  lemma Neighbors6()
    ensures NeighborIndices(5, 5, Moore, 6) == [5, 10, 11, 12, 7, 2, 1, 0]
  {
    assert GetNeighbor(5, 5, 6, -1, 0) == Success(5);
    assert GetNeighbor(5, 5, 6, -1, 1) == Success(10);
    assert GetNeighbor(5, 5, 6, 0, 1) == Success(11);
    assert GetNeighbor(5, 5, 6, 1, 1) == Success(12);
    assert GetNeighbor(5, 5, 6, 1, 0) == Success(7);
    assert GetNeighbor(5, 5, 6, 1, -1) == Success(2);
    assert GetNeighbor(5, 5, 6, 0, -1) == Success(1);
    assert GetNeighbor(5, 5, 6, -1, -1) == Success(0);
  }

  lemma Count6()
    ensures ConwayNext(Horizontal()[6], Gather(Horizontal(), [5, 10, 11, 12, 7, 2, 1, 0])) == Vertical()[6]
    ensures ConwayNext(Vertical()[6], Gather(Vertical(), [5, 10, 11, 12, 7, 2, 1, 0])) == Horizontal()[6]
  {
    CountAlive8(Gather(Horizontal(), [5, 10, 11, 12, 7, 2, 1, 0]));
    CountAlive8(Gather(Vertical(), [5, 10, 11, 12, 7, 2, 1, 0]));
  }

  lemma Cell7()
    ensures Flips(7)
  {
    Neighbors7();
    StepThrough(7, [6, 11, 12, 13, 8, 3, 2, 1]);
    Count7();
  }

  lemma Neighbors7()
    ensures NeighborIndices(5, 5, Moore, 7) == [6, 11, 12, 13, 8, 3, 2, 1]
  {
    assert GetNeighbor(5, 5, 7, -1, 0) == Success(6);
    assert GetNeighbor(5, 5, 7, -1, 1) == Success(11);
    assert GetNeighbor(5, 5, 7, 0, 1) == Success(12);
    assert GetNeighbor(5, 5, 7, 1, 1) == Success(13);
    assert GetNeighbor(5, 5, 7, 1, 0) == Success(8);
    assert GetNeighbor(5, 5, 7, 1, -1) == Success(3);
    assert GetNeighbor(5, 5, 7, 0, -1) == Success(2);
    assert GetNeighbor(5, 5, 7, -1, -1) == Success(1);
  }

  lemma Count7()
    ensures ConwayNext(Horizontal()[7], Gather(Horizontal(), [6, 11, 12, 13, 8, 3, 2, 1])) == Vertical()[7]
    ensures ConwayNext(Vertical()[7], Gather(Vertical(), [6, 11, 12, 13, 8, 3, 2, 1])) == Horizontal()[7]
  {
    CountAlive8(Gather(Horizontal(), [6, 11, 12, 13, 8, 3, 2, 1]));
    CountAlive8(Gather(Vertical(), [6, 11, 12, 13, 8, 3, 2, 1]));
  }

  lemma Cell8()
    ensures Flips(8)
  {
    Neighbors8();
    StepThrough(8, [7, 12, 13, 14, 9, 4, 3, 2]);
    Count8();
  }

  lemma Neighbors8()
    ensures NeighborIndices(5, 5, Moore, 8) == [7, 12, 13, 14, 9, 4, 3, 2]
  {
    assert GetNeighbor(5, 5, 8, -1, 0) == Success(7);
    assert GetNeighbor(5, 5, 8, -1, 1) == Success(12);
    assert GetNeighbor(5, 5, 8, 0, 1) == Success(13);
    assert GetNeighbor(5, 5, 8, 1, 1) == Success(14);
    assert GetNeighbor(5, 5, 8, 1, 0) == Success(9);
    assert GetNeighbor(5, 5, 8, 1, -1) == Success(4);
    assert GetNeighbor(5, 5, 8, 0, -1) == Success(3);
    assert GetNeighbor(5, 5, 8, -1, -1) == Success(2);
  }

  lemma Count8()
    ensures ConwayNext(Horizontal()[8], Gather(Horizontal(), [7, 12, 13, 14, 9, 4, 3, 2])) == Vertical()[8]
    ensures ConwayNext(Vertical()[8], Gather(Vertical(), [7, 12, 13, 14, 9, 4, 3, 2])) == Horizontal()[8]
  {
    CountAlive8(Gather(Horizontal(), [7, 12, 13, 14, 9, 4, 3, 2]));
    CountAlive8(Gather(Vertical(), [7, 12, 13, 14, 9, 4, 3, 2]));
  }

  lemma Cell9()
    ensures Flips(9)
  {
    Neighbors9();
    StepThrough(9, [8, 13, 14, 10, 5, 0, 4, 3]);
    Count9();
  }

  lemma Neighbors9()
    ensures NeighborIndices(5, 5, Moore, 9) == [8, 13, 14, 10, 5, 0, 4, 3]
  {
    assert GetNeighbor(5, 5, 9, -1, 0) == Success(8);
    assert GetNeighbor(5, 5, 9, -1, 1) == Success(13);
    assert GetNeighbor(5, 5, 9, 0, 1) == Success(14);
    assert GetNeighbor(5, 5, 9, 1, 1) == Success(10);
    assert GetNeighbor(5, 5, 9, 1, 0) == Success(5);
    assert GetNeighbor(5, 5, 9, 1, -1) == Success(0);
    assert GetNeighbor(5, 5, 9, 0, -1) == Success(4);
    assert GetNeighbor(5, 5, 9, -1, -1) == Success(3);
  }

  lemma Count9()
    ensures ConwayNext(Horizontal()[9], Gather(Horizontal(), [8, 13, 14, 10, 5, 0, 4, 3])) == Vertical()[9]
    ensures ConwayNext(Vertical()[9], Gather(Vertical(), [8, 13, 14, 10, 5, 0, 4, 3])) == Horizontal()[9]
  {
    CountAlive8(Gather(Horizontal(), [8, 13, 14, 10, 5, 0, 4, 3]));
    CountAlive8(Gather(Vertical(), [8, 13, 14, 10, 5, 0, 4, 3]));
  }

  lemma Cell10()
    ensures Flips(10)
  {
    Neighbors10();
    StepThrough(10, [14, 19, 15, 16, 11, 6, 5, 9]);
    Count10();
  }

  lemma Neighbors10()
    ensures NeighborIndices(5, 5, Moore, 10) == [14, 19, 15, 16, 11, 6, 5, 9]
  {
    assert GetNeighbor(5, 5, 10, -1, 0) == Success(14);
    assert GetNeighbor(5, 5, 10, -1, 1) == Success(19);
    assert GetNeighbor(5, 5, 10, 0, 1) == Success(15);
    assert GetNeighbor(5, 5, 10, 1, 1) == Success(16);
    assert GetNeighbor(5, 5, 10, 1, 0) == Success(11);
    assert GetNeighbor(5, 5, 10, 1, -1) == Success(6);
    assert GetNeighbor(5, 5, 10, 0, -1) == Success(5);
    assert GetNeighbor(5, 5, 10, -1, -1) == Success(9);
  }

  lemma Count10()
    ensures ConwayNext(Horizontal()[10], Gather(Horizontal(), [14, 19, 15, 16, 11, 6, 5, 9])) == Vertical()[10]
    ensures ConwayNext(Vertical()[10], Gather(Vertical(), [14, 19, 15, 16, 11, 6, 5, 9])) == Horizontal()[10]
  {
    CountAlive8(Gather(Horizontal(), [14, 19, 15, 16, 11, 6, 5, 9]));
    CountAlive8(Gather(Vertical(), [14, 19, 15, 16, 11, 6, 5, 9]));
  }

  lemma Cell11()
    ensures Flips(11)
  {
    Neighbors11();
    StepThrough(11, [10, 15, 16, 17, 12, 7, 6, 5]);
    Count11();
  }

  lemma Neighbors11()
    ensures NeighborIndices(5, 5, Moore, 11) == [10, 15, 16, 17, 12, 7, 6, 5]
  {
    assert GetNeighbor(5, 5, 11, -1, 0) == Success(10);
    assert GetNeighbor(5, 5, 11, -1, 1) == Success(15);
    assert GetNeighbor(5, 5, 11, 0, 1) == Success(16);
    assert GetNeighbor(5, 5, 11, 1, 1) == Success(17);
    assert GetNeighbor(5, 5, 11, 1, 0) == Success(12);
    assert GetNeighbor(5, 5, 11, 1, -1) == Success(7);
    assert GetNeighbor(5, 5, 11, 0, -1) == Success(6);
    assert GetNeighbor(5, 5, 11, -1, -1) == Success(5);
  }

  lemma Count11()
    ensures ConwayNext(Horizontal()[11], Gather(Horizontal(), [10, 15, 16, 17, 12, 7, 6, 5])) == Vertical()[11]
    ensures ConwayNext(Vertical()[11], Gather(Vertical(), [10, 15, 16, 17, 12, 7, 6, 5])) == Horizontal()[11]
  {
    CountAlive8(Gather(Horizontal(), [10, 15, 16, 17, 12, 7, 6, 5]));
    CountAlive8(Gather(Vertical(), [10, 15, 16, 17, 12, 7, 6, 5]));
  }

  lemma Cell12()
    ensures Flips(12)
  {
    Neighbors12();
    StepThrough(12, [11, 16, 17, 18, 13, 8, 7, 6]);
    Count12();
  }

  lemma Neighbors12()
    ensures NeighborIndices(5, 5, Moore, 12) == [11, 16, 17, 18, 13, 8, 7, 6]
  {
    assert GetNeighbor(5, 5, 12, -1, 0) == Success(11);
    assert GetNeighbor(5, 5, 12, -1, 1) == Success(16);
    assert GetNeighbor(5, 5, 12, 0, 1) == Success(17);
    assert GetNeighbor(5, 5, 12, 1, 1) == Success(18);
    assert GetNeighbor(5, 5, 12, 1, 0) == Success(13);
    assert GetNeighbor(5, 5, 12, 1, -1) == Success(8);
    assert GetNeighbor(5, 5, 12, 0, -1) == Success(7);
    assert GetNeighbor(5, 5, 12, -1, -1) == Success(6);
  }

  lemma Count12()
    ensures ConwayNext(Horizontal()[12], Gather(Horizontal(), [11, 16, 17, 18, 13, 8, 7, 6])) == Vertical()[12]
    ensures ConwayNext(Vertical()[12], Gather(Vertical(), [11, 16, 17, 18, 13, 8, 7, 6])) == Horizontal()[12]
  {
    CountAlive8(Gather(Horizontal(), [11, 16, 17, 18, 13, 8, 7, 6]));
    CountAlive8(Gather(Vertical(), [11, 16, 17, 18, 13, 8, 7, 6]));
  }

  lemma Cell13()
    ensures Flips(13)
  {
    Neighbors13();
    StepThrough(13, [12, 17, 18, 19, 14, 9, 8, 7]);
    Count13();
  }

  lemma Neighbors13()
    ensures NeighborIndices(5, 5, Moore, 13) == [12, 17, 18, 19, 14, 9, 8, 7]
  {
    assert GetNeighbor(5, 5, 13, -1, 0) == Success(12);
    assert GetNeighbor(5, 5, 13, -1, 1) == Success(17);
    assert GetNeighbor(5, 5, 13, 0, 1) == Success(18);
    assert GetNeighbor(5, 5, 13, 1, 1) == Success(19);
    assert GetNeighbor(5, 5, 13, 1, 0) == Success(14);
    assert GetNeighbor(5, 5, 13, 1, -1) == Success(9);
    assert GetNeighbor(5, 5, 13, 0, -1) == Success(8);
    assert GetNeighbor(5, 5, 13, -1, -1) == Success(7);
  }

  lemma Count13()
    ensures ConwayNext(Horizontal()[13], Gather(Horizontal(), [12, 17, 18, 19, 14, 9, 8, 7])) == Vertical()[13]
    ensures ConwayNext(Vertical()[13], Gather(Vertical(), [12, 17, 18, 19, 14, 9, 8, 7])) == Horizontal()[13]
  {
    CountAlive8(Gather(Horizontal(), [12, 17, 18, 19, 14, 9, 8, 7]));
    CountAlive8(Gather(Vertical(), [12, 17, 18, 19, 14, 9, 8, 7]));
  }

  lemma Cell14()
    ensures Flips(14)
  {
    Neighbors14();
    StepThrough(14, [13, 18, 19, 15, 10, 5, 9, 8]);
    Count14();
  }

  lemma Neighbors14()
    ensures NeighborIndices(5, 5, Moore, 14) == [13, 18, 19, 15, 10, 5, 9, 8]
  {
    assert GetNeighbor(5, 5, 14, -1, 0) == Success(13);
    assert GetNeighbor(5, 5, 14, -1, 1) == Success(18);
    assert GetNeighbor(5, 5, 14, 0, 1) == Success(19);
    assert GetNeighbor(5, 5, 14, 1, 1) == Success(15);
    assert GetNeighbor(5, 5, 14, 1, 0) == Success(10);
    assert GetNeighbor(5, 5, 14, 1, -1) == Success(5);
    assert GetNeighbor(5, 5, 14, 0, -1) == Success(9);
    assert GetNeighbor(5, 5, 14, -1, -1) == Success(8);
  }

  lemma Count14()
    ensures ConwayNext(Horizontal()[14], Gather(Horizontal(), [13, 18, 19, 15, 10, 5, 9, 8])) == Vertical()[14]
    ensures ConwayNext(Vertical()[14], Gather(Vertical(), [13, 18, 19, 15, 10, 5, 9, 8])) == Horizontal()[14]
  {
    CountAlive8(Gather(Horizontal(), [13, 18, 19, 15, 10, 5, 9, 8]));
    CountAlive8(Gather(Vertical(), [13, 18, 19, 15, 10, 5, 9, 8]));
  }

  lemma Cell15()
    ensures Flips(15)
  {
    Neighbors15();
    StepThrough(15, [19, 24, 20, 21, 16, 11, 10, 14]);
    Count15();
  }

  lemma Neighbors15()
    ensures NeighborIndices(5, 5, Moore, 15) == [19, 24, 20, 21, 16, 11, 10, 14]
  {
    assert GetNeighbor(5, 5, 15, -1, 0) == Success(19);
    assert GetNeighbor(5, 5, 15, -1, 1) == Success(24);
    assert GetNeighbor(5, 5, 15, 0, 1) == Success(20);
    assert GetNeighbor(5, 5, 15, 1, 1) == Success(21);
    assert GetNeighbor(5, 5, 15, 1, 0) == Success(16);
    assert GetNeighbor(5, 5, 15, 1, -1) == Success(11);
    assert GetNeighbor(5, 5, 15, 0, -1) == Success(10);
    assert GetNeighbor(5, 5, 15, -1, -1) == Success(14);
  }

  lemma Count15()
    ensures ConwayNext(Horizontal()[15], Gather(Horizontal(), [19, 24, 20, 21, 16, 11, 10, 14])) == Vertical()[15]
    ensures ConwayNext(Vertical()[15], Gather(Vertical(), [19, 24, 20, 21, 16, 11, 10, 14])) == Horizontal()[15]
  {
    CountAlive8(Gather(Horizontal(), [19, 24, 20, 21, 16, 11, 10, 14]));
    CountAlive8(Gather(Vertical(), [19, 24, 20, 21, 16, 11, 10, 14]));
  }

  lemma Cell16()
    ensures Flips(16)
  {
    Neighbors16();
    StepThrough(16, [15, 20, 21, 22, 17, 12, 11, 10]);
    Count16();
  }

  lemma Neighbors16()
    ensures NeighborIndices(5, 5, Moore, 16) == [15, 20, 21, 22, 17, 12, 11, 10]
  {
    assert GetNeighbor(5, 5, 16, -1, 0) == Success(15);
    assert GetNeighbor(5, 5, 16, -1, 1) == Success(20);
    assert GetNeighbor(5, 5, 16, 0, 1) == Success(21);
    assert GetNeighbor(5, 5, 16, 1, 1) == Success(22);
    assert GetNeighbor(5, 5, 16, 1, 0) == Success(17);
    assert GetNeighbor(5, 5, 16, 1, -1) == Success(12);
    assert GetNeighbor(5, 5, 16, 0, -1) == Success(11);
    assert GetNeighbor(5, 5, 16, -1, -1) == Success(10);
  }

  lemma Count16()
    ensures ConwayNext(Horizontal()[16], Gather(Horizontal(), [15, 20, 21, 22, 17, 12, 11, 10])) == Vertical()[16]
    ensures ConwayNext(Vertical()[16], Gather(Vertical(), [15, 20, 21, 22, 17, 12, 11, 10])) == Horizontal()[16]
  {
    CountAlive8(Gather(Horizontal(), [15, 20, 21, 22, 17, 12, 11, 10]));
    CountAlive8(Gather(Vertical(), [15, 20, 21, 22, 17, 12, 11, 10]));
  }

  lemma Cell17()
    ensures Flips(17)
  {
    Neighbors17();
    StepThrough(17, [16, 21, 22, 23, 18, 13, 12, 11]);
    Count17();
  }

  lemma Neighbors17()
    ensures NeighborIndices(5, 5, Moore, 17) == [16, 21, 22, 23, 18, 13, 12, 11]
  {
    assert GetNeighbor(5, 5, 17, -1, 0) == Success(16);
    assert GetNeighbor(5, 5, 17, -1, 1) == Success(21);
    assert GetNeighbor(5, 5, 17, 0, 1) == Success(22);
    assert GetNeighbor(5, 5, 17, 1, 1) == Success(23);
    assert GetNeighbor(5, 5, 17, 1, 0) == Success(18);
    assert GetNeighbor(5, 5, 17, 1, -1) == Success(13);
    assert GetNeighbor(5, 5, 17, 0, -1) == Success(12);
    assert GetNeighbor(5, 5, 17, -1, -1) == Success(11);
  }

  lemma Count17()
    ensures ConwayNext(Horizontal()[17], Gather(Horizontal(), [16, 21, 22, 23, 18, 13, 12, 11])) == Vertical()[17]
    ensures ConwayNext(Vertical()[17], Gather(Vertical(), [16, 21, 22, 23, 18, 13, 12, 11])) == Horizontal()[17]
  {
    CountAlive8(Gather(Horizontal(), [16, 21, 22, 23, 18, 13, 12, 11]));
    CountAlive8(Gather(Vertical(), [16, 21, 22, 23, 18, 13, 12, 11]));
  }

  lemma Cell18()
    ensures Flips(18)
  {
    Neighbors18();
    StepThrough(18, [17, 22, 23, 24, 19, 14, 13, 12]);
    Count18();
  }

  lemma Neighbors18()
    ensures NeighborIndices(5, 5, Moore, 18) == [17, 22, 23, 24, 19, 14, 13, 12]
  {
    assert GetNeighbor(5, 5, 18, -1, 0) == Success(17);
    assert GetNeighbor(5, 5, 18, -1, 1) == Success(22);
    assert GetNeighbor(5, 5, 18, 0, 1) == Success(23);
    assert GetNeighbor(5, 5, 18, 1, 1) == Success(24);
    assert GetNeighbor(5, 5, 18, 1, 0) == Success(19);
    assert GetNeighbor(5, 5, 18, 1, -1) == Success(14);
    assert GetNeighbor(5, 5, 18, 0, -1) == Success(13);
    assert GetNeighbor(5, 5, 18, -1, -1) == Success(12);
  }

  lemma Count18()
    ensures ConwayNext(Horizontal()[18], Gather(Horizontal(), [17, 22, 23, 24, 19, 14, 13, 12])) == Vertical()[18]
    ensures ConwayNext(Vertical()[18], Gather(Vertical(), [17, 22, 23, 24, 19, 14, 13, 12])) == Horizontal()[18]
  {
    CountAlive8(Gather(Horizontal(), [17, 22, 23, 24, 19, 14, 13, 12]));
    CountAlive8(Gather(Vertical(), [17, 22, 23, 24, 19, 14, 13, 12]));
  }

  lemma Cell19()
    ensures Flips(19)
  {
    Neighbors19();
    StepThrough(19, [18, 23, 24, 20, 15, 10, 14, 13]);
    Count19();
  }

  lemma Neighbors19()
    ensures NeighborIndices(5, 5, Moore, 19) == [18, 23, 24, 20, 15, 10, 14, 13]
  {
    assert GetNeighbor(5, 5, 19, -1, 0) == Success(18);
    assert GetNeighbor(5, 5, 19, -1, 1) == Success(23);
    assert GetNeighbor(5, 5, 19, 0, 1) == Success(24);
    assert GetNeighbor(5, 5, 19, 1, 1) == Success(20);
    assert GetNeighbor(5, 5, 19, 1, 0) == Success(15);
    assert GetNeighbor(5, 5, 19, 1, -1) == Success(10);
    assert GetNeighbor(5, 5, 19, 0, -1) == Success(14);
    assert GetNeighbor(5, 5, 19, -1, -1) == Success(13);
  }

  lemma Count19()
    ensures ConwayNext(Horizontal()[19], Gather(Horizontal(), [18, 23, 24, 20, 15, 10, 14, 13])) == Vertical()[19]
    ensures ConwayNext(Vertical()[19], Gather(Vertical(), [18, 23, 24, 20, 15, 10, 14, 13])) == Horizontal()[19]
  {
    CountAlive8(Gather(Horizontal(), [18, 23, 24, 20, 15, 10, 14, 13]));
    CountAlive8(Gather(Vertical(), [18, 23, 24, 20, 15, 10, 14, 13]));
  }

  lemma Cell20()
    ensures Flips(20)
  {
    Neighbors20();
    StepThrough(20, [24, 4, 0, 1, 21, 16, 15, 19]);
    Count20();
  }

  lemma Neighbors20()
    ensures NeighborIndices(5, 5, Moore, 20) == [24, 4, 0, 1, 21, 16, 15, 19]
  {
    assert GetNeighbor(5, 5, 20, -1, 0) == Success(24);
    assert GetNeighbor(5, 5, 20, -1, 1) == Success(4);
    assert GetNeighbor(5, 5, 20, 0, 1) == Success(0);
    assert GetNeighbor(5, 5, 20, 1, 1) == Success(1);
    assert GetNeighbor(5, 5, 20, 1, 0) == Success(21);
    assert GetNeighbor(5, 5, 20, 1, -1) == Success(16);
    assert GetNeighbor(5, 5, 20, 0, -1) == Success(15);
    assert GetNeighbor(5, 5, 20, -1, -1) == Success(19);
  }

  lemma Count20()
    ensures ConwayNext(Horizontal()[20], Gather(Horizontal(), [24, 4, 0, 1, 21, 16, 15, 19])) == Vertical()[20]
    ensures ConwayNext(Vertical()[20], Gather(Vertical(), [24, 4, 0, 1, 21, 16, 15, 19])) == Horizontal()[20]
  {
    CountAlive8(Gather(Horizontal(), [24, 4, 0, 1, 21, 16, 15, 19]));
    CountAlive8(Gather(Vertical(), [24, 4, 0, 1, 21, 16, 15, 19]));
  }

  lemma Cell21()
    ensures Flips(21)
  {
    Neighbors21();
    StepThrough(21, [20, 0, 1, 2, 22, 17, 16, 15]);
    Count21();
  }

  lemma Neighbors21()
    ensures NeighborIndices(5, 5, Moore, 21) == [20, 0, 1, 2, 22, 17, 16, 15]
  {
    assert GetNeighbor(5, 5, 21, -1, 0) == Success(20);
    assert GetNeighbor(5, 5, 21, -1, 1) == Success(0);
    assert GetNeighbor(5, 5, 21, 0, 1) == Success(1);
    assert GetNeighbor(5, 5, 21, 1, 1) == Success(2);
    assert GetNeighbor(5, 5, 21, 1, 0) == Success(22);
    assert GetNeighbor(5, 5, 21, 1, -1) == Success(17);
    assert GetNeighbor(5, 5, 21, 0, -1) == Success(16);
    assert GetNeighbor(5, 5, 21, -1, -1) == Success(15);
  }

  lemma Count21()
    ensures ConwayNext(Horizontal()[21], Gather(Horizontal(), [20, 0, 1, 2, 22, 17, 16, 15])) == Vertical()[21]
    ensures ConwayNext(Vertical()[21], Gather(Vertical(), [20, 0, 1, 2, 22, 17, 16, 15])) == Horizontal()[21]
  {
    CountAlive8(Gather(Horizontal(), [20, 0, 1, 2, 22, 17, 16, 15]));
    CountAlive8(Gather(Vertical(), [20, 0, 1, 2, 22, 17, 16, 15]));
  }

  lemma Cell22()
    ensures Flips(22)
  {
    Neighbors22();
    StepThrough(22, [21, 1, 2, 3, 23, 18, 17, 16]);
    Count22();
  }

  lemma Neighbors22()
    ensures NeighborIndices(5, 5, Moore, 22) == [21, 1, 2, 3, 23, 18, 17, 16]
  {
    assert GetNeighbor(5, 5, 22, -1, 0) == Success(21);
    assert GetNeighbor(5, 5, 22, -1, 1) == Success(1);
    assert GetNeighbor(5, 5, 22, 0, 1) == Success(2);
    assert GetNeighbor(5, 5, 22, 1, 1) == Success(3);
    assert GetNeighbor(5, 5, 22, 1, 0) == Success(23);
    assert GetNeighbor(5, 5, 22, 1, -1) == Success(18);
    assert GetNeighbor(5, 5, 22, 0, -1) == Success(17);
    assert GetNeighbor(5, 5, 22, -1, -1) == Success(16);
  }

  lemma Count22()
    ensures ConwayNext(Horizontal()[22], Gather(Horizontal(), [21, 1, 2, 3, 23, 18, 17, 16])) == Vertical()[22]
    ensures ConwayNext(Vertical()[22], Gather(Vertical(), [21, 1, 2, 3, 23, 18, 17, 16])) == Horizontal()[22]
  {
    CountAlive8(Gather(Horizontal(), [21, 1, 2, 3, 23, 18, 17, 16]));
    CountAlive8(Gather(Vertical(), [21, 1, 2, 3, 23, 18, 17, 16]));
  }

  lemma Cell23()
    ensures Flips(23)
  {
    Neighbors23();
    StepThrough(23, [22, 2, 3, 4, 24, 19, 18, 17]);
    Count23();
  }

  lemma Neighbors23()
    ensures NeighborIndices(5, 5, Moore, 23) == [22, 2, 3, 4, 24, 19, 18, 17]
  {
    assert GetNeighbor(5, 5, 23, -1, 0) == Success(22);
    assert GetNeighbor(5, 5, 23, -1, 1) == Success(2);
    assert GetNeighbor(5, 5, 23, 0, 1) == Success(3);
    assert GetNeighbor(5, 5, 23, 1, 1) == Success(4);
    assert GetNeighbor(5, 5, 23, 1, 0) == Success(24);
    assert GetNeighbor(5, 5, 23, 1, -1) == Success(19);
    assert GetNeighbor(5, 5, 23, 0, -1) == Success(18);
    assert GetNeighbor(5, 5, 23, -1, -1) == Success(17);
  }

  lemma Count23()
    ensures ConwayNext(Horizontal()[23], Gather(Horizontal(), [22, 2, 3, 4, 24, 19, 18, 17])) == Vertical()[23]
    ensures ConwayNext(Vertical()[23], Gather(Vertical(), [22, 2, 3, 4, 24, 19, 18, 17])) == Horizontal()[23]
  {
    CountAlive8(Gather(Horizontal(), [22, 2, 3, 4, 24, 19, 18, 17]));
    CountAlive8(Gather(Vertical(), [22, 2, 3, 4, 24, 19, 18, 17]));
  }

  lemma Cell24()
    ensures Flips(24)
  {
    Neighbors24();
    StepThrough(24, [23, 3, 4, 0, 20, 15, 19, 18]);
    Count24();
  }

  lemma Neighbors24()
    ensures NeighborIndices(5, 5, Moore, 24) == [23, 3, 4, 0, 20, 15, 19, 18]
  {
    assert GetNeighbor(5, 5, 24, -1, 0) == Success(23);
    assert GetNeighbor(5, 5, 24, -1, 1) == Success(3);
    assert GetNeighbor(5, 5, 24, 0, 1) == Success(4);
    assert GetNeighbor(5, 5, 24, 1, 1) == Success(0);
    assert GetNeighbor(5, 5, 24, 1, 0) == Success(20);
    assert GetNeighbor(5, 5, 24, 1, -1) == Success(15);
    assert GetNeighbor(5, 5, 24, 0, -1) == Success(19);
    assert GetNeighbor(5, 5, 24, -1, -1) == Success(18);
  }

  lemma Count24()
    ensures ConwayNext(Horizontal()[24], Gather(Horizontal(), [23, 3, 4, 0, 20, 15, 19, 18])) == Vertical()[24]
    ensures ConwayNext(Vertical()[24], Gather(Vertical(), [23, 3, 4, 0, 20, 15, 19, 18])) == Horizontal()[24]
  {
    CountAlive8(Gather(Horizontal(), [23, 3, 4, 0, 20, 15, 19, 18]));
    CountAlive8(Gather(Vertical(), [23, 3, 4, 0, 20, 15, 19, 18]));
  }
}
