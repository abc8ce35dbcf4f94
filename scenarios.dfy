/**
  * The blinker driven through the automaton's own interface: initAutomata,
  * then updateAutomata and getCurrentState twice, on the single-thread engine
  * and on the barrier engine with any positive number of threads.
  */
module Scenarios {
  import opened JavaBase
  import opened Topology
  import opened Generation
  import opened Automata
  import opened Blinker

  /**
    * On any advancing 5 x 5 Moore automaton the horizontal blinker reads
    * back vertical after one update and horizontal after two.
    */
  method RunBlinker(a: RectangularWraparoundAutomata) returns (afterOne: seq<bool>, afterTwo: seq<bool>)
    requires a.Valid() && a.Advances()
    requires a.width == 5 && a.height == 5 && a.wiring == Wiring(5, 5, Moore)
    modifies a.cells
    ensures afterOne == Vertical() && afterTwo == Horizontal()
  {
    BlinkerOscillates();
    var o := a.InitAutomata(Horizontal());
    a.UpdateAutomata();
    afterOne := a.GetCurrentState();
    assert afterOne == a.State();
    a.UpdateAutomata();
    afterTwo := a.GetCurrentState();
    assert afterTwo == a.State();
  }

  /** The blinker on a fresh single-thread automaton. */
  method SingleThreadBlinker() returns (afterOne: seq<bool>, afterTwo: seq<bool>)
    ensures afterOne == Vertical() && afterTwo == Horizontal()
  {
    var r := NewSingleThreadAutomata(5, 5, Moore);
    afterOne, afterTwo := RunBlinker(r.value);
  }

  /** The blinker on a fresh barrier-engine automaton with threadsNumber updaters (any count the barrier accepts). */
  method BarrierPoolBlinker(threadsNumber: int) returns (afterOne: seq<bool>, afterTwo: seq<bool>)
    requires 1 <= threadsNumber < INT_MAX
    ensures afterOne == Vertical() && afterTwo == Horizontal()
  {
    var r := NewForkJoinAutomata(5, 5, Moore, threadsNumber);
    afterOne, afterTwo := RunBlinker(r.value);
  }
}
