# Conway's Game of Life on a wraparound grid — a Dafny model

This project models the core of a Java cellular-automaton engine that runs
Conway's Game of Life on a rectangular grid whose edges wrap around (a torus).

- **Cells** (`Cells.ConwayCell`) hold a current state, a pending state and a
  list of neighbour cells. A step has two phases. *calculateNextState* reads
  every neighbour's current state and stores the Conway rule's verdict as the
  pending state. *updateState* then commits it.
- **The factory** (`ConwayCellFactory`) hands out fresh, dead, unwired cells.
- **The grid** (`Automata.RectangularWraparoundAutomata`) owns width × height
  distinct cells, stored row-major (index = y · width + x). The constructor
  wires every cell to its neighbours through the offset table of the chosen
  neighbourhood (Moore, Von Neumann or extended Von Neumann). Offsets wrap
  modulo the dimensions (`Topology`).
- **Two update engines.** The single-thread engine computes every cell, then
  commits every cell. The barrier engine (ForkJoinRWAutomata) splits the cell
  list into contiguous slices (`Partition`). It runs every slice's compute
  loop, then every slice's commit loop, and does nothing at all once it has
  been shut down.
- **Reference semantics** (`Generation`). `StepState` gives one generation as a
  function of the previous grid state and the wiring. `Generations` gives n
  of them. Both engines are proved to produce exactly `StepState`.
- **The end-step renderer** (`Renderer`) initialises the automaton, runs it
  `stepNumber` times, and prints the final grid: 'O' for alive, '_' for dead,
  and a line end after the last cell of each row. Its output is proved equal
  to the picture of height lines of width glyphs when the width is positive;
  a zero-width grid has no cells and prints nothing.
- **Worked example** (`Blinker`, `Scenarios`). A blinker on a 5 × 5 Moore grid
  oscillates. This is proved for the reference semantics and for both engines
  driven through their own interface.

Java exceptions are values of `JavaBase.Error`: `IllegalArgument` for
IllegalArgumentException and `DivisionByZero` for ArithmeticException.
Java's truncating `/` and `%` are `JavaBase.JavaDiv` and `JavaBase.JavaRem`.

Two points of the code that the model keeps as written:

- Construction rejects only negative dimensions (src/main/java/org/innopolis/kuzymvas/cellular/AbstractRectangularWraparoundAutomata.java:44-46).
  A zero dimension gives an empty grid with no wiring (`Topology.EmptyGridWiring`).
- Cells hold references to their neighbour cells. The model keeps them as
  `seq<ConwayCell>` and ties them to a ghost index wiring.

## Model

| member | source | states |
|---|---|---|
| ConwayRule.RuleCases | src/main/java/org/innopolis/kuzymvas/cellular/cells/ConwayCell.java:19-31 | A live cell lives on iff it has 2 or 3 live neighbours, so it dies with 0, 1 or 4 or more. A dead cell is born iff it has exactly 3, so it stays dead with any other count. |
| ConwayRule.ConwayNext | src/main/java/org/innopolis/kuzymvas/cellular/cells/ConwayCell.java:19-31 | A cell is alive after the step only if it has 2 or 3 live neighbours, and 3 live neighbours always make it alive (the exact cases are RuleCases). |
| ConwayRule.CountAliveBounds | src/main/java/org/innopolis/kuzymvas/cellular/cells/ConwayCell.java:20-25 | The live-neighbour count is at most the list length, and it is 0 iff no neighbour is alive. |
| ConwayRule.CountAliveIsMultiplicity | src/main/java/org/innopolis/kuzymvas/cellular/cells/ConwayCell.java:20-25 | The count equals the number of occurrences of true in the list, whatever their order. |
| ConwayRule.CountAliveAppend | src/main/java/org/innopolis/kuzymvas/cellular/cells/ConwayCell.java:20-25 | Counting a concatenation adds the two counts. |
| ConwayRule.RuleIgnoresOrder | src/main/java/org/innopolis/kuzymvas/cellular/cells/ConwayCell.java:19-31 | Two neighbour lists with the same multiset of states give the same verdict. |
| ConwayRule.RuleIgnoresDeadNeighbours | src/main/java/org/innopolis/kuzymvas/cellular/cells/ConwayCell.java:19-31 | Appending any number of dead neighbours does not change the verdict, so only the live count matters and the list length does not. |
| Cells.ConwayCell.IsAlive | src/main/java/org/innopolis/kuzymvas/cellular/cells/AbstractCell.java:37-40 | Returns the current state and changes nothing; the constructor, SetAlive and UpdateState state what that value is after each of them. |
| Cells.ConwayCell.NextStateFromNeighborhoodState | src/main/java/org/innopolis/kuzymvas/cellular/cells/ConwayCell.java:19-31 | The cell's verdict is true iff exactly 3 neighbour states are true, or the cell is alive and exactly 2 are; it reads the cell and changes no field. |
| Cells.ConwayCell.constructor | src/main/java/org/innopolis/kuzymvas/cellular/cells/AbstractCell.java:18-21 | A new cell is alive iff created alive. Its pending state is false, it has no neighbourhood yet, and its scratch list is empty. |
| Cells.ConwayCell.CalculateNextState | src/main/java/org/innopolis/kuzymvas/cellular/cells/AbstractCell.java:24-30 | Needs a neighbourhood. The scratch list becomes the neighbours' current states in neighbourhood order, each read once. The pending state becomes the rule's verdict on the cell's own state and that list. Only the scratch list and the pending state change. |
| Cells.ConwayCell.UpdateState | src/main/java/org/innopolis/kuzymvas/cellular/cells/AbstractCell.java:33-35 | The current state becomes the pending state, and nothing else changes. |
| Cells.ConwayCell.SetAlive | src/main/java/org/innopolis/kuzymvas/cellular/cells/AbstractCell.java:48-50 | After the call isAlive returns the given state. Only the current state changes. |
| Cells.ConwayCell.SetNeighborhood | src/main/java/org/innopolis/kuzymvas/cellular/cells/AbstractCell.java:43-45 | The neighbourhood becomes the given list. Because it is stored as a value, later changes to the caller's list cannot reach it. |
| Cells.OneCellStep | src/main/java/org/innopolis/kuzymvas/cellular/cells/AbstractCell.java:24-35 | A cell with neighbours whose states are given, after one compute and one commit, ends in exactly the state the rule gives. |
| Cells.CommitBeforeCompute | src/main/java/org/innopolis/kuzymvas/cellular/cells/AbstractCell.java:14-35 | Committing a fresh cell before any compute makes it dead, because the pending state starts false. |
| ConwayCellFactory.CreateCell | src/main/java/org/innopolis/kuzymvas/cellular/cells/ConwayCellFactory.java:11-14 | Returns a freshly allocated cell that is dead, has nothing pending and has no neighbourhood. |
| ConwayCellFactory.CreateCells | src/main/java/org/innopolis/kuzymvas/cellular/cells/ConwayCellFactory.java:16-23 | Returns exactly amount cells when amount >= 0, and none when it is negative. All of them are pairwise distinct, fresh and dead. |
| Topology.OffsetTables | src/main/java/org/innopolis/kuzymvas/cellular/AbstractRectangularWraparoundAutomata.java:15-26 | Moore's table is the 8 cells around the origin. Von Neumann's is the 4 orthogonal unit offsets. The extended table is those 4 plus the 4 at distance 2. No table repeats an offset. |
| Topology.Deltas | src/main/java/org/innopolis/kuzymvas/cellular/AbstractRectangularWraparoundAutomata.java:15-26 | Each table has two rows of equal length: 8, 4 or 8 columns. |
| Topology.GetNeighbor | src/main/java/org/innopolis/kuzymvas/cellular/AbstractRectangularWraparoundAutomata.java:103-118 | Fails iff ownIndex < 0, ownIndex > size (an index equal to size is let through), or a dimension is 0. A bad index fails with IllegalArgument; a zero dimension fails with DivisionByZero. On success the index lies in [0, width·height), its column is (ownX + dx) mod width and its row is (ownY + dy) mod height. |
| Topology.NeighborIndices | src/main/java/org/innopolis/kuzymvas/cellular/AbstractRectangularWraparoundAutomata.java:127-133 | One cell's neighbour list has one entry per table column, and every entry is an index inside the grid. |
| Topology.NeighborAt | src/main/java/org/innopolis/kuzymvas/cellular/AbstractRectangularWraparoundAutomata.java:107-117 | Neighbour k of cell i is the cell at row (i / width + dy_k) mod height and column (i mod width + dx_k) mod width, in closed form. |
| Topology.Wiring | src/main/java/org/innopolis/kuzymvas/cellular/AbstractRectangularWraparoundAutomata.java:66-68 | The constructor's wiring has one neighbour list per cell, each as long as the offset table, holding only indices of cells of the grid. |
| Topology.WiringShape | src/main/java/org/innopolis/kuzymvas/cellular/AbstractRectangularWraparoundAutomata.java:66-68 | The wiring has one entry per cell. Each entry is as long as the offset table and holds only indices inside the grid. |
| Topology.WiringOffsets | src/main/java/org/innopolis/kuzymvas/cellular/AbstractRectangularWraparoundAutomata.java:103-133 | For every cell and table column, the wired neighbour's column and row are the cell's own shifted by that column's offset, modulo the dimensions. |
| Topology.WraparoundCorner | src/main/java/org/innopolis/kuzymvas/cellular/AbstractRectangularWraparoundAutomata.java:109-116 | On 5 × 5, the Moore neighbour of (0,0) at offset (-1,-1) is index 24, the cell (4,4). |
| Topology.SingleCellWiring | src/main/java/org/innopolis/kuzymvas/cellular/AbstractRectangularWraparoundAutomata.java:128-131 | On a 1 × 1 grid, every neighbour of the only cell is that cell, once per table column, and duplicates are kept. |
| Topology.EmptyGridWiring | src/main/java/org/innopolis/kuzymvas/cellular/AbstractRectangularWraparoundAutomata.java:44-68 | A zero dimension passes the constructor's check and gives an empty wiring. |
| Generation.GenerationsStep | src/main/java/org/innopolis/kuzymvas/cellular/SingleThreadRWAutomata.java:16-24 | n + 1 generations are one more step after n, so a loop of n updates reaches Generations(s, n). |
| Generation.AllDeadStaysDead | src/main/java/org/innopolis/kuzymvas/cellular/SingleThreadRWAutomata.java:18-23 | An all-dead grid stays all-dead after any number of generations. |
| Blinker.BlinkerOscillates | src/main/java/org/innopolis/kuzymvas/cellular/SingleThreadRWAutomata.java:16-24 | On 5 × 5 Moore, the horizontal triple at y = 2 becomes the vertical triple at x = 2 in one generation, returns in the next, and is back after two generations. |
| JavaBase.AddInt | src/main/java/org/innopolis/kuzymvas/cellular/ForkJoinRWAutomata.java:33 | Java int addition: the result is an int congruent to the exact sum modulo 2^32. |
| Partition.ComputeSlices | src/main/java/org/innopolis/kuzymvas/cellular/ForkJoinRWAutomata.java:28-50 | The barrier gets threadsNumber + 1 parties in int arithmetic, so a negative count and the largest int (whose successor wraps negative) fail with IllegalArgument; zero fails with DivisionByZero at the share division. Otherwise the result is the slice table: slice i < t-1 is [i·share, (i+1)·share) and the last is [(t-1)·share, n). |
| Partition.SliceTable | src/main/java/org/innopolis/kuzymvas/cellular/ForkJoinRWAutomata.java:35-44 | Exactly t slices (one per updater); the first starts at cell 0 and the last ends at the last cell. |
| Partition.SliceTablePartitions | src/main/java/org/innopolis/kuzymvas/cellular/ForkJoinRWAutomata.java:35-49 | For t >= 1 the t slices are contiguous, start at 0 and end at n. Each but the last has n / t cells, and the last has n / t + n % t. |
| Partition.MoreThreadsThanCells | src/main/java/org/innopolis/kuzymvas/cellular/ForkJoinRWAutomata.java:35-49 | With more threads than cells, every slice but the last is empty and the last is [0, n). |
| Partition.PartitionOrdered | src/main/java/org/innopolis/kuzymvas/cellular/ForkJoinRWAutomata.java:36-44 | An earlier slice ends no later than a later one starts. |
| Partition.PartitionCovers | src/main/java/org/innopolis/kuzymvas/cellular/ForkJoinRWAutomata.java:35-49 | Every cell index below n lies in some slice. |
| Partition.PartitionDisjoint | src/main/java/org/innopolis/kuzymvas/cellular/ForkJoinRWAutomata.java:35-49 | No cell index lies in two slices, so each cell is updated by exactly one updater. |
| Automata.RectangularWraparoundAutomata.constructor | src/main/java/org/innopolis/kuzymvas/cellular/AbstractRectangularWraparoundAutomata.java:41-69 | Creates width·height distinct dead cells. Each cell i gets the neighbour cells its wiring entry lists, in table order. |
| Automata.RectangularWraparoundAutomata.InitNeighborhood | src/main/java/org/innopolis/kuzymvas/cellular/AbstractRectangularWraparoundAutomata.java:127-133 | Cell ownIndex's neighbourhood becomes the cells at its wired indices, in table order. Only that cell's neighbourhood fields change. |
| Automata.RectangularWraparoundAutomata.InitAutomata | src/main/java/org/innopolis/kuzymvas/cellular/AbstractRectangularWraparoundAutomata.java:72-79 | A list whose length is not width·height fails with IllegalArgument, and the state is unchanged. Otherwise the grid's state becomes exactly the list, and the wiring is kept. |
| Automata.RectangularWraparoundAutomata.GetCurrentState | src/main/java/org/innopolis/kuzymvas/cellular/AbstractRectangularWraparoundAutomata.java:81-88 | Returns one entry per cell, where entry i is cell i's isAlive. Nothing changes. |
| Automata.RectangularWraparoundAutomata.GetDimensions | src/main/java/org/innopolis/kuzymvas/cellular/AbstractRectangularWraparoundAutomata.java:90-93 | Returns [width, height]. |
| Automata.RectangularWraparoundAutomata.ComputeRange | src/main/java/org/innopolis/kuzymvas/cellular/ForkJoinRWAutomata.java:116-118 | Each cell in the range gets as its pending state cell i of StepState of the pre-step snapshot. No current state changes. |
| Automata.RectangularWraparoundAutomata.ComputeCell | src/main/java/org/innopolis/kuzymvas/cellular/SingleThreadRWAutomata.java:19 | calculateNextState on one wired cell: its pending state becomes its entry of StepState of the pre-step snapshot. |
| Automata.RectangularWraparoundAutomata.CommitRange | src/main/java/org/innopolis/kuzymvas/cellular/ForkJoinRWAutomata.java:120-122 | Each cell in the range takes its pending state, and the others keep their state. |
| Automata.RectangularWraparoundAutomata.UpdateSingleThread | src/main/java/org/innopolis/kuzymvas/cellular/SingleThreadRWAutomata.java:16-24 | All computes run before any commit, so the new grid state is exactly StepState of the old one. The cells and the wiring are kept. |
| Automata.RectangularWraparoundAutomata.ComputeEverySlice | src/main/java/org/innopolis/kuzymvas/cellular/ForkJoinRWAutomata.java:112-127 | After every slice's compute loop, every cell's pending state is its StepState entry. |
| Automata.RectangularWraparoundAutomata.CommitEverySlice | src/main/java/org/innopolis/kuzymvas/cellular/ForkJoinRWAutomata.java:112-127 | After every slice's commit loop, every cell has taken its pending state. |
| Automata.RectangularWraparoundAutomata.UpdateForkJoin | src/main/java/org/innopolis/kuzymvas/cellular/ForkJoinRWAutomata.java:56-72 | Once shut down, no cell changes. Otherwise the new state is exactly StepState of the old one, the same as the single-thread step. |
| Automata.RectangularWraparoundAutomata.ShutDown | src/main/java/org/innopolis/kuzymvas/cellular/ForkJoinRWAutomata.java:77-82 | Clears isOkay and nothing else. |
| Automata.RectangularWraparoundAutomata.UpdateAutomata | src/main/java/org/innopolis/kuzymvas/cellular/ForkJoinRWAutomata.java:56-72 | Whichever engine runs, the state becomes StepState of the old one while the engine advances, and is otherwise unchanged. |
| Automata.NewSingleThreadAutomata | src/main/java/org/innopolis/kuzymvas/cellular/SingleThreadRWAutomata.java:11-14 | Fails with IllegalArgument iff a dimension is negative. Otherwise it returns a well-formed all-dead grid with dimensions [width, height], wired for the neighbourhood type. |
| Automata.NewForkJoinAutomata | src/main/java/org/innopolis/kuzymvas/cellular/ForkJoinRWAutomata.java:28-50 | A negative dimension, a negative thread count or the largest int as thread count fail with IllegalArgument, and zero threads fails with DivisionByZero. Otherwise it returns a well-formed all-dead grid that is running (isOkay) with the slice table for threadsNumber. |
| Renderer.RendererWidth | src/main/java/org/innopolis/kuzymvas/renderers/EndStepRenderer.java:22-29 | A dimension list without exactly 2 entries fails with IllegalArgument. Otherwise the width is its first entry. |
| Renderer.NewEndStepRenderer | src/main/java/org/innopolis/kuzymvas/renderers/EndStepRenderer.java:22-29 | A renderer for a two-dimensional automaton is always built, and it keeps the automaton's width. |
| Renderer.Row | src/main/java/org/innopolis/kuzymvas/renderers/EndStepRenderer.java:46-50 | One glyph per cell, in order: 'O' for alive, '_' for dead. |
| Renderer.Text | src/main/java/org/innopolis/kuzymvas/renderers/EndStepRenderer.java:45-54 | The printed text has one glyph per state plus one line end per full row: n + n / width characters for n states, and nothing for an empty list. |
| Renderer.PartialRow | src/main/java/org/innopolis/kuzymvas/renderers/EndStepRenderer.java:45-54 | Printing part of a row adds one glyph per cell. The line ends exactly when the row is complete. |
| Renderer.TextRows | src/main/java/org/innopolis/kuzymvas/renderers/EndStepRenderer.java:45-54 | For width > 0, the print loop's output for a width × height grid is exactly height lines, each holding one row's glyphs and a line end. |
| Renderer.LinesLength | src/main/java/org/innopolis/kuzymvas/renderers/EndStepRenderer.java:45-54 | That picture has (width + 1) · height characters. |
| Renderer.EndStepRenderer.Print | src/main/java/org/innopolis/kuzymvas/renderers/EndStepRenderer.java:45-54 | The loop's output is Text(states): glyph i, then a line end iff i % width == width - 1. An empty list prints nothing. |
| Renderer.EndStepRenderer.Run | src/main/java/org/innopolis/kuzymvas/renderers/EndStepRenderer.java:39-42 | A wrong-length initial state fails with IllegalArgument and leaves the state unchanged. Otherwise the state becomes stepNumber generations of the initial state (none when negative), or stays the initial state once the engine is shut down. |
| Renderer.EndStepRenderer.Loop | src/main/java/org/innopolis/kuzymvas/renderers/EndStepRenderer.java:40-42 | Starting from the initial state, stepNumber updates (none when negative) leave stepNumber generations of it, or the initial state itself once the engine is shut down. |
| Renderer.EndStepRenderer.Step | src/main/java/org/innopolis/kuzymvas/renderers/EndStepRenderer.java:41 | One update takes generation i to generation i + 1 while the engine advances. |
| Renderer.EndStepRenderer.GetFinalState | src/main/java/org/innopolis/kuzymvas/renderers/EndStepRenderer.java:44 | Returns the automaton's current state. |
| Renderer.EndStepRenderer.Render | src/main/java/org/innopolis/kuzymvas/renderers/EndStepRenderer.java:38-55 | A wrong-length initial state fails before any cell changes. Otherwise the final state is Expected(stepNumber, initialState) and the output is its Text. For width > 0 the output is its Lines picture. A zero width means no cells, and the output is empty. |
| Scenarios.RunBlinker | src/main/java/org/innopolis/kuzymvas/cellular/SingleThreadRWAutomata.java:16-24 | On any advancing 5 × 5 Moore automaton, initAutomata(horizontal) and then two updates read back vertical, then horizontal. |
| Scenarios.SingleThreadBlinker | src/main/java/org/innopolis/kuzymvas/cellular/SingleThreadRWAutomata.java:11-24 | The same holds on a freshly built single-thread automaton. |
| Scenarios.BarrierPoolBlinker | src/main/java/org/innopolis/kuzymvas/cellular/ForkJoinRWAutomata.java:28-72 | The same holds on a freshly built barrier-engine automaton for every thread count the barrier accepts (1 up to the largest int minus one). |

## Left out

- Threads, the CyclicBarrier, daemon flags, interrupts and BrokenBarrierException. The barrier only separates the phases: every compute before every commit. Within a phase the updaters run concurrently; the model runs them one after another in slice order and does not cover the interleavings within a phase. The fault that makes the engine call shutDown is not modelled; `ShutDown` is a method any caller may invoke.
- Automata.RectangularWraparoundAutomata.UpdateSingleThread: states the resulting grid, not the number of calculateNextState and updateState calls per cell (one each in the loops).
- Automata.RectangularWraparoundAutomata.constructor: `width * height` and the other int products are taken as unbounded integers; the 32-bit overflow of very large grids is not modelled. Only the barrier's `threadsNumber + 1` is computed with int wrap-around (`JavaBase.AddInt`).
- `volatile` on the current state is a memory-visibility concern with no sequential meaning.
- A null neighbourhood type is not modelled; `NeighborhoodType` is a datatype with three values.
- AbstractCell and ConwayCell are one class, since ConwayCell is the only concrete cell. The abstract `Cell` and `CellFactory` interfaces are not modelled.
- Topology.GetNeighbor: returns the neighbour's index rather than the cell. The grid looks the cell up in its list.
- Renderer.EndStepRenderer.Print: the PrintStream is modelled as the returned string. `println` writes the platform line separator, modelled as "\n".
- Renderer.Text uses Dafny's `%`, which equals Java's `%` for the non-negative index and positive width it is applied to (`Print` itself uses `JavaRem`).
- Main.java (command-line parsing and file reading) and RealTimeStepRenderer.java (screen clearing and sleeping) are not part of this model.
- MultiThreadRWAutomata (constructed at src/main/java/org/innopolis/kuzymvas/Main.java:36) is not part of this model.
