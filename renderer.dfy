/**
  * EndStepRenderer: runs the automaton a given number of steps from a given
  * initial state and prints the final grid, one character per cell ('O'
  * alive, '_' dead), ending a line after every cell whose index modulo the
  * width is width - 1. The output stream is modelled as the string returned.
  */
module Renderer {
  import opened JavaBase
  import opened Topology
  import opened Generation
  import opened Automata

  /** The character printed for one cell. */
  function Glyph(alive: bool): char {
    if alive then 'O' else '_'
  }

  /**
    * What the print loop writes for `states`: cell i's glyph, followed by a
    * line end when i % width == width - 1. Indices are non-negative and a
    * printed grid has a positive width, where Java's remainder and Dafny's
    * agree (JavaRem's contract); a zero width only comes with no cells.
    */
  function Text(states: seq<bool>, width: nat): (out: string)
    requires width > 0 || states == []
    ensures |out| == |states| + (if width > 0 then |states| / width else 0)
    decreases |states|
  {
    if states == [] then ""
    else
      var i := |states| - 1;
      LineEnds(i, width);
      Text(states[..i], width) + [Glyph(states[i])] + (if i % width == width - 1 then "\n" else "")
  }

  /** The number of full rows grows by one exactly at the last cell of a row. */
  lemma LineEnds(i: nat, width: nat)
    requires width > 0
    ensures (i + 1) / width == i / width + (if i % width == width - 1 then 1 else 0)
  {
    var q, r := i / width, i % width;
    if r == width - 1 {
      EuclideanUnique(i + 1, width, q + 1, 0);
    } else {
      EuclideanUnique(i + 1, width, q, r + 1);
    }
  }

  /** One grid row, as glyphs. */
  function Row(cells: seq<bool>): (r: string)
    ensures |r| == |cells|
    ensures forall k :: 0 <= k < |cells| ==> r[k] == Glyph(cells[k])
  {
    seq(|cells|, k requires 0 <= k < |cells| => Glyph(cells[k]))
  }

  /** A grid of height rows is its first height - 1 rows and one more row of width cells. */
  lemma LastRow(width: nat, height: nat)
    requires height > 0
    ensures width * (height - 1) + width == width * height
  {
  }

  /**
    * The grid picture the renderer is meant to draw: `height` lines, each the
    * glyphs of one row of `width` cells followed by a line end.
    */
  function Lines(states: seq<bool>, width: nat, height: nat): (out: string)
    requires |states| == width * height
    decreases height
  {
    if height == 0 then ""
    else
      LastRow(width, height);
      var top := width * (height - 1);
      Lines(states[..top], width, height - 1) + Row(states[top..]) + "\n"
  }

  /** Cell i of a row that starts at a multiple of the width sits at column i - start. */
  lemma ColumnAfterRows(width: nat, start: nat, i: nat)
    requires width > 0 && start % width == 0 && start <= i < start + width
    ensures i % width == i - start
  {
    EuclideanUnique(i, width, start / width, i - start);
  }

  /** The first `rows` full rows end on a multiple of the width. */
  lemma RowStart(width: nat, rows: nat)
    requires width > 0
    ensures (width * rows) % width == 0
  {
    EuclideanUnique(width * rows, width, rows, 0);
  }

  /** Extending a row by one cell extends its glyphs by one. */
  lemma RowSnoc(states: seq<bool>, start: nat, end: nat)
    requires start < end <= |states|
    ensures Row(states[start..end - 1]) + [Glyph(states[end - 1])] == Row(states[start..end])
  {
  }

  /** Printing one more cell appends its glyph, and a line end when it closes a row. */
  lemma TextSnoc(states: seq<bool>, width: nat, end: nat)
    requires width > 0 && 0 < end <= |states|
    ensures Text(states[..end], width)
         == Text(states[..end - 1], width) + [Glyph(states[end - 1])] +
            (if (end - 1) % width == width - 1 then "\n" else "")
  {
    assert states[..end][..end - 1] == states[..end - 1];
  }

  /**
    * Printing the cells of a row that starts at a multiple of the width, up
    * to `end`, adds those cells' glyphs, and ends the line exactly when the
    * row is complete.
    */
  lemma {:induction false} PartialRow(states: seq<bool>, width: nat, start: nat, end: nat)
    requires width > 0 && start % width == 0 && start <= end <= start + width && end <= |states|
    ensures Text(states[..end], width)
         == Text(states[..start], width) + Row(states[start..end]) + (if end == start + width then "\n" else "")
    decreases end
  {
    if end == start {
      assert Row(states[start..start]) == "";
    } else {
      var n := end - 1;
      var nl: string := if end == start + width then "\n" else "";
      var t, r, g := Text(states[..start], width), Row(states[start..n]), [Glyph(states[n])];
      PartialRow(states, width, start, n);
      ColumnAfterRows(width, start, n);
      TextSnoc(states, width, end);
      RowSnoc(states, start, end);
      assert Text(states[..end], width) == (t + r) + g + nl;
      assert (t + r) + g + nl == t + (r + g) + nl;
    }
  }

  /** Printing a grid of `height` full rows yields exactly the picture of `height` lines. */
  lemma {:induction false} TextRows(states: seq<bool>, width: nat, height: nat)
    requires width > 0 && |states| == width * height
    ensures Text(states, width) == Lines(states, width, height)
    decreases height
  {
    if height > 0 {
      LastRow(width, height);
      var top := width * (height - 1);
      RowStart(width, height - 1);
      TextRows(states[..top], width, height - 1);
      PartialRow(states, width, top, top + width);
      assert states[..top + width] == states;
    }
  }

  /** Each picture line holds width glyphs and a line end: h * (width + 1) characters. */
  lemma {:induction false} LinesLength(states: seq<bool>, width: nat, height: nat)
    requires |states| == width * height
    ensures |Lines(states, width, height)| == (width + 1) * height
    decreases height
  {
    if height > 0 {
      LastRow(width, height);
      LastRow(width + 1, height);
      var top := width * (height - 1);
      LinesLength(states[..top], width, height - 1);
    }
  }

  /**
    * The constructor's dimension check: a 2D automaton gives its width, any
    * other dimension list is refused.
    */
  function RendererWidth(dims: seq<int>): (r: Result<int>)
    ensures r.Failure? <==> |dims| != 2
    ensures r.Failure? ==> r.error == IllegalArgument
    ensures r.Success? ==> r.value == dims[0]
  {
    if |dims| != 2 then Failure(IllegalArgument) else Success(dims[0])
  }

  /** The step count the render loop performs: none for a negative count. */
  function Steps(stepNumber: int): nat {
    if stepNumber < 0 then 0 else stepNumber
  }

  class EndStepRenderer {
    const automata: RectangularWraparoundAutomata
    const width: int

    /** The renderer's width is its automaton's, and the automaton is well formed. */
    ghost predicate Valid()
      reads automata.cells
    {
      automata.Valid() && width == automata.width
    }

    constructor (automata: RectangularWraparoundAutomata, width: int)
      ensures this.automata == automata && this.width == width
    {
      this.automata := automata;
      this.width := width;
    }

    /**
      * The state render leaves behind: stepNumber generations of the initial
      * state, or the initial state itself once a barrier engine has shut down.
      */
    ghost function Expected(stepNumber: int, initialState: seq<bool>): (s: seq<bool>)
      reads automata
      requires automata.Shape() && |initialState| == |automata.cells|
      ensures |s| == |initialState|
    {
      if automata.Advances() then Generations(initialState, automata.wiring, Steps(stepNumber))
      else initialState
    }

    /**
      * render: sets the initial state, performs `stepNumber` updates, then
      * prints the final state. An initial state of the wrong length is
      * refused before any cell changes and nothing is printed.
      */
    method Render(stepNumber: int, initialState: seq<bool>) returns (r: Result<string>)
      requires Valid()
      modifies automata.cells
      ensures Valid()
      ensures |initialState| != |automata.cells| ==>
        r == Failure(IllegalArgument) && automata.State() == old(automata.State())
      ensures |initialState| == |automata.cells| ==>
        automata.State() == Expected(stepNumber, initialState) && r == Success(Text(automata.State(), width))
      ensures |initialState| == |automata.cells| && width == 0 ==> r == Success("")
      ensures |initialState| == |automata.cells| && width > 0 ==>
        r == Success(Lines(automata.State(), width, automata.height))
    {
      var o := Run(stepNumber, initialState);
      if o.Fail? {
        return Failure(o.error);
      }
      ghost var final := automata.State();
      var states := GetFinalState();
      var out := Print(states);
      if width > 0 {
        TextRows(states, width, automata.height);
      }
      return Success(out);
    }

    /** The state-changing half of render: initAutomata, then the update loop. */
    method Run(stepNumber: int, initialState: seq<bool>) returns (o: Outcome)
      requires Valid()
      modifies automata.cells
      ensures Valid()
      ensures |initialState| != |automata.cells| ==>
        o == Fail(IllegalArgument) && automata.State() == old(automata.State())
      ensures |initialState| == |automata.cells| ==> o == Pass && automata.State() == Expected(stepNumber, initialState)
    {
      o := automata.InitAutomata(initialState);
      if o.Pass? {
        Loop(stepNumber, initialState);
      }
    }

    /** The update loop: `stepNumber` calls of updateAutomata, none for a negative count. */
    method Loop(stepNumber: int, ghost initialState: seq<bool>)
      requires Valid() && |initialState| == |automata.cells| && automata.State() == initialState
      modifies automata.cells
      ensures Valid() && automata.State() == Expected(stepNumber, initialState)
    {
      var i := 0;
      while i < stepNumber
        invariant 0 <= i && (i <= stepNumber || i == 0)
        invariant Valid() && |initialState| == |automata.cells|
        invariant automata.Advances() ==> automata.State() == Generations(initialState, automata.wiring, i)
        invariant !automata.Advances() ==> automata.State() == initialState
      {
        Step(initialState, i);
        i := i + 1;
      }
      assert i == Steps(stepNumber);
    }

    /** One pass of the update loop: generation i becomes generation i + 1 while the engine advances. */
    method Step(ghost initialState: seq<bool>, ghost i: nat)
      requires Valid() && |initialState| == |automata.cells|
      requires automata.Advances() ==> automata.State() == Generations(initialState, automata.wiring, i)
      requires !automata.Advances() ==> automata.State() == initialState
      modifies automata.cells
      ensures Valid()
      ensures automata.Advances() ==> automata.State() == Generations(initialState, automata.wiring, i + 1)
      ensures !automata.Advances() ==> automata.State() == initialState
    {
      automata.UpdateAutomata();
      if automata.Advances() {
        GenerationsStep(initialState, automata.wiring, i);
      }
    }

    /** getCurrentState on the automaton; it changes nothing. */
    method GetFinalState() returns (states: seq<bool>)
      requires Valid()
      ensures states == automata.State()
    {
      states := automata.GetCurrentState();
      assert states == automata.State();
    }

    /** The print loop over the final states; it changes nothing. */
    method Print(states: seq<bool>) returns (out: string)
      requires width > 0 || (width == 0 && states == [])
      ensures out == Text(states, width)
    {
      out := "";
      var k := 0;
      while k < |states|
        invariant 0 <= k <= |states|
        invariant out == Text(states[..k], width)
      {
        if states[k] {
          out := out + "O";
        } else {
          out := out + "_";
        }
        if JavaRem(k, width) == width - 1 {
          out := out + "\n";
        }
        assert states[..k + 1][..k] == states[..k];
        k := k + 1;
      }
      assert states[..|states|] == states;
    }
  }

  /**
    * new EndStepRenderer(automata): reads the dimensions and keeps the width.
    * The automata modelled here are always two-dimensional, so the check passes.
    */
  method NewEndStepRenderer(automata: RectangularWraparoundAutomata) returns (r: Result<EndStepRenderer>)
    ensures r.Success?
    ensures fresh(r.value) && r.value.automata == automata && r.value.width == automata.width
  {
    var width := RendererWidth(automata.GetDimensions());
    if width.Failure? {
      return Failure(IllegalArgument);
    }
    var renderer := new EndStepRenderer(automata, width.value);
    return Success(renderer);
  }
}
