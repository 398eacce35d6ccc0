# 2048 move engine

A model of the game logic of the `AppHome` page of the 2048 remake
(`src/pages/app-home.ts`): the 4x4 board the page holds, the reducer that
slides and merges one row or column (`moveRowOrColumn`), the board move that
applies it to every line of a copy and keeps the copy only when a line
changed (`moveTiles`), the spawn of a 2 or a 4 into a random empty cell
(`addRandomTile`), and the start position of two spawned tiles
(`initializeBoard`, `resetGame`, the constructor).

The project has four modules:

- `Lines` (Lines.dfy) holds the reducer as functions on sequences: `NonZero`
  (the `filter`), `Merge` (the front-to-back merge loop) and `Reduce` (the
  whole of `moveRowOrColumn`), with its sum, tile-count, packing, no-op and
  no-cascade lemmas.
- `Grid` (Grid.dfy) holds the board move as functions: `Line` (the row or
  column a move works on), `Shift` (what the move writes back for one line,
  with the reversals of the right move) and `Move` (the assembled board),
  with conservation, no-op, symmetry and example lemmas.
- `Spawning` (Spawning.dfy) holds the row-major list of empty cells, `Spawn`
  (the effect of `addRandomTile` for given random draws), `Turn` (a move
  followed, when it changed the board, by a spawn) and `InitialBoard`.
- `Home` (AppHome.dfy) holds the class `AppHome`. Its `board` field is
  reassigned by methods that follow the source's loops. Each method is
  proved against the functions above: `MoveRowOrColumn` returns `Reduce`,
  `AddRandomTile` leaves `Spawn`, `MoveTiles` leaves `Turn`, and the
  constructor, `ResetGame` and `InitializeBoard` leave `InitialBoard`.

The two calls to `Math.random` in `addRandomTile` are parameters of the
model. `pick` is the index drawn into the list of empty cells, and it must
be below the list's length whenever the list is not empty. `value` is the
tile drawn, 2 or 4. Every board the source can reach is covered by some
choice of the two.

Where the code and the game's description disagree, the model follows the
code:

- Down is not the mirror image of up. `moveRowOrColumn` merges the tiles of
  a down move front to back and packs them at the bottom without reversing
  them, so the column 2, 2, 2, empty (top first) ends as empty, empty, 4, 2.
  A true mirror of up would give empty, empty, 2, 4. `Grid.DownIsNotFlippedUp`
  and `Grid.FlippedUpColumn` show the difference. Left and right are mirror
  images (`Grid.MirrorSymmetry`).
- The tile count after a changed move plus its spawn is not always one more
  than before. It is the count before, minus the number of merges, plus one
  (`Spawning.TurnFacts`). It is one more only when nothing merged.

## Model

| member | source | states |
|---|---|---|
| Lines.NonZero | src/pages/app-home.ts:171 | the tiles kept by the filter are as many as the non-empty cells, and none of them is 0 |
| Lines.Zeros | src/pages/app-home.ts:183 | `Array(n).fill(0)`: n empty cells; `Lines.ZerosFacts` proves they have total 0, no tile, and read the same reversed |
| Lines.Reverse | src/pages/app-home.ts:187 | `reverse()`: the line back to front; `Lines.ReverseReverse` proves it undoes itself and `Lines.ReverseCounts` that it keeps the total and reverses the list of tiles |
| Lines.Merge | src/pages/app-home.ts:174-181 | the merge pass never lengthens the tile list; `Lines.MergeLength`, `Lines.MergeSum`, `Lines.MergeNonZero`, `Lines.MergeTileValues` and `Lines.MergeIdentity` state what it does |
| Lines.Reduce | src/pages/app-home.ts:182-188 | the reduced line is padded with zeros to the length of the input line |
| Lines.MergeLength | src/pages/app-home.ts:174-181 | each merge turns two tiles into one: merged length plus merges is the number of tiles |
| Lines.MergeSum | src/pages/app-home.ts:174-181 | the merge pass keeps the total of the tiles |
| Lines.MergeNonZero | src/pages/app-home.ts:174-181 | a list of nonzero tiles merges into a list of nonzero tiles |
| Lines.MergeTileValues | src/pages/app-home.ts:174-181 | a list of tile values merges into a list of tile values (doubling a tile value gives a tile value) |
| Lines.MergeIdentity | src/pages/app-home.ts:174-181 | the merge pass leaves a list unchanged if and only if no two neighbours are equal, and this is also exactly when it merges nothing (its second half is proved by induction in `Lines.MergeNone`) |
| Lines.FourEqualTiles | src/pages/app-home.ts:174-181 | four equal tiles moved left become two merged tiles, not one: [v,v,v,v] becomes [2v,2v,0,0] |
| Lines.MergedTileStays | src/pages/app-home.ts:174-181 | a freshly merged tile does not merge again with an equal tile next to it: [v,v,2v,0] becomes [2v,2v,0,0] |
| Lines.ThreeEqualTiles | src/pages/app-home.ts:174-181 | of three equal tiles moved left, only the first two merge: [v,v,v,0] becomes [2v,v,0,0] |
| Lines.MergeThree | src/pages/app-home.ts:174-181 | the merge pass over three equal tiles merges the first two and keeps the third |
| Lines.TilesOfTwoTwoTwo | src/pages/app-home.ts:171 | the filter keeps the three tiles of [2,2,2,0] and of [0,2,2,2] |
| Lines.ReduceShape | src/pages/app-home.ts:170-189 | the reduced line has the input's length and total, the tile count falls by the number of merges, tiles are packed at the front for up and left and at the back for down and right, and the tiles in order are the merged tiles (reversed for right) |
| Lines.ReduceKeepsCells | src/pages/app-home.ts:170-189 | reducing a line of empty cells and tile values gives a line of empty cells and tile values |
| Lines.NonZeroSum | src/pages/app-home.ts:171 | dropping the empty cells keeps the total of a line |
| Lines.NonZeroTiles | src/pages/app-home.ts:171 | the tiles filtered from a line of cells are tile values |
| Lines.ReduceLeftNoOp | src/pages/app-home.ts:170-189 | a left or up reduction leaves a line unchanged if and only if its tiles are packed at the front with no equal neighbours (one direction each in `Lines.ReduceLeftUnchanged` and `Lines.ReduceLeftPacked`) |
| Lines.ReduceDownNoOp | src/pages/app-home.ts:170-189 | a down reduction leaves a line unchanged if and only if its tiles are packed at the back with no equal neighbours (one direction each in `Lines.ReduceDownUnchanged` and `Lines.ReduceDownPacked`) |
| Grid.EmptyBoard | src/pages/app-home.ts:9 | the initial board is 4x4 with every cell 0 |
| Grid.Column | src/pages/app-home.ts:203 | a column read off the board has one cell per row |
| Grid.Line | src/pages/app-home.ts:202-206 | the line a move works on has 4 cells |
| Grid.Shift | src/pages/app-home.ts:202-215 | what the move writes back for a line has the line's length |
| Grid.Move | src/pages/app-home.ts:198-219 | the moved board is again a 4x4 board |
| Grid.ShiftRight | src/pages/app-home.ts:206-215 | the three reversals of a right move amount to reducing the reversed row |
| Grid.ShiftRightMirrorsLeft | src/pages/app-home.ts:184-187 | a right move on a row is the reverse of a left move on the reversed row |
| Grid.ShiftDownKeepsUpOrder | src/pages/app-home.ts:184-188 | a down move keeps the tile order of an up move and puts the zeros on top |
| Grid.ShiftFacts | src/pages/app-home.ts:170-215 | a move keeps each line's total, lowers its tile count by its merges, and keeps empty cells and tile values as such (its right case is `Grid.ShiftRightCounts`, its cell case `Grid.ShiftKeepsCells`) |
| Grid.ShiftNoOp | src/pages/app-home.ts:211 | a move leaves a line unchanged if and only if the line is stuck: packed toward the move's edge with no equal neighbouring tiles |
| Grid.ShiftFull | src/pages/app-home.ts:211-217 | a moved line without an empty cell is the original line, so every changed line has an empty cell |
| Grid.StuckWithoutMerges | src/pages/app-home.ts:174-181 | a line of tiles only on which the move merges nothing is stuck |
| Grid.RightExampleApart | src/pages/app-home.ts:184-215 | a right move on [2,0,0,2] gives [0,0,0,4] |
| Grid.RightExampleTriple | src/pages/app-home.ts:184-215 | a right move on [2,2,2,0] gives [0,0,2,4]: the pair next to the right edge merges |
| Grid.DownExampleTriple | src/pages/app-home.ts:184-188 | the column [2,2,2,0] (top first) moved down gives [0,0,4,2]: the pair at the top merges |
| Grid.UpExampleTriple | src/pages/app-home.ts:184-185 | the column [2,2,2,0] moved up gives [4,2,0,0] |
| Grid.MoveLine | src/pages/app-home.ts:201-218 | after the move, every line of the board is that line shifted |
| Grid.MoveUnchanged | src/pages/app-home.ts:211-220 | the move changes nothing if and only if it changes no line |
| Grid.MoveNoOp | src/pages/app-home.ts:211-220 | the move changes nothing if and only if every line is stuck |
| Grid.MovedBoardHasEmptyCell | src/pages/app-home.ts:220-222 | a move that changes the board leaves an empty cell, so the spawn after it always places a tile |
| Grid.ByLines | src/pages/app-home.ts:201-206 | the board total and tile count are the sums over the lines of a move, rows or columns |
| Grid.MoveConserves | src/pages/app-home.ts:191-224 | a move keeps the board total, and the tile count falls by exactly the number of merges |
| Grid.MoveKeepsCells | src/pages/app-home.ts:191-224 | a board of empty cells and tile values stays one after a move |
| Grid.MirrorSymmetry | src/pages/app-home.ts:202-215 | moving right is mirroring the board, moving left and mirroring back |
| Grid.FlippedUpColumn | src/pages/app-home.ts:202-213 | turning the board over, moving up and turning back acts on each column as reverse, move up, reverse |
| Grid.DownIsNotFlippedUp | src/pages/app-home.ts:184-188 | down is not up upside down: [2,2,2,0] reversed, moved up and reversed back is [0,0,2,4], which differs from the same column moved down |
| Grid.LeftExample | src/pages/app-home.ts:198-218 | the board with 2,2 at the start of the top row moved left has [4,0,0,0] on top and counts as changed |
| Spawning.EmptyCellsUpTo | src/pages/app-home.ts:126-133 | what the nested scan has collected after k cells holds at most k cells; `Spawning.EmptyCellsStep` ties it to one step of the scan |
| Spawning.EmptyCells | src/pages/app-home.ts:126-133 | the finished scan lists at most 16 cells; `Spawning.EmptyCellsSound` and `Spawning.EmptyCellsComplete` prove it lists exactly the empty cells, in row-major order |
| Spawning.EmptyCellsSound | src/pages/app-home.ts:126-133 | every listed cell is on the board and empty, and the list is in strictly increasing row-major order |
| Spawning.EmptyCellsStep | src/pages/app-home.ts:127-132 | one step of the nested scan appends the visited cell exactly when it is empty |
| Spawning.EmptyCellsComplete | src/pages/app-home.ts:126-133 | every empty cell of the board is in the list |
| Spawning.EmptyCellsNone | src/pages/app-home.ts:134 | the list is empty if and only if no cell of the board is empty |
| Spawning.EmptyBoardCells | src/pages/app-home.ts:9 | all 16 cells of the empty board are listed |
| Spawning.Spawn | src/pages/app-home.ts:125-138 | a spawn leaves a 4x4 board |
| Spawning.SpawnEffect | src/pages/app-home.ts:134-137 | a full board is left as it is; otherwise exactly one cell changes: the chosen empty cell, which receives the drawn value |
| Spawning.SpawnFillsOneCell | src/pages/app-home.ts:134-137 | a spawn of a tile shortens the list of empty cells by one |
| Spawning.SpawnCounts | src/pages/app-home.ts:134-137 | a spawn adds one tile and its value to the board, or nothing on a full board |
| Spawning.LineUpdate | src/pages/app-home.ts:136 | writing one cell of a line changes its total and tile count by the difference at that cell |
| Spawning.BoardUpdate | src/pages/app-home.ts:136 | writing one row of a board changes its total and tile count by the difference at that row |
| Spawning.SpawnKeepsCells | src/pages/app-home.ts:136 | spawning 2 or 4 keeps every cell empty or a tile value |
| Spawning.Turn | src/pages/app-home.ts:211-223 | a turn leaves a 4x4 board: the moved board with one spawn when the move changed it, else the old board; `Spawning.TurnFacts` states its effect |
| Spawning.TurnFacts | src/pages/app-home.ts:191-224 | a no-op move leaves the board exactly as it was with no spawn; a changed move always has room for its spawn, the total grows by the spawned value alone, and the tile count is the count before minus the merges plus one; tile values stay tile values (the changed case is `Spawning.TurnChanged`, the cell case `Spawning.TurnKeepsCells`) |
| Spawning.InitialBoard | src/pages/app-home.ts:120-123 | the start position is a 4x4 board |
| Spawning.InitialBoardShape | src/pages/app-home.ts:120-123 | the start position has exactly two tiles, and every cell is 0, 2 or 4 |
| Spawning.EmptyBoardTotals | src/pages/app-home.ts:9 | the empty board holds no tile |
| Home.WriteColumn | src/pages/app-home.ts:213 | writing a column back replaces column i cell by cell and leaves every other cell alone |
| Home.WriteRow | src/pages/app-home.ts:215 | writing a row back (reversed once more for right) replaces line i with the final line |
| Home.WrittenLine | src/pages/app-home.ts:202-216 | the change test of the loop fires exactly when the move changes line i, and the values written back are the moved board's |
| Home.LineStep | src/pages/app-home.ts:201-219 | one pass of the loop extends the part of the copy that agrees with the moved board by one line |
| Home.MovedStep | src/pages/app-home.ts:211-217 | the `moved` flag is set exactly when some line seen so far changed |
| Home.NoLineMoves | src/pages/app-home.ts:211-220 | the move is a no-op if and only if no line changes |
| Home.BuiltAll | src/pages/app-home.ts:201-221 | once every line is written, the copy is the moved board |
| Home.AppHome.constructor | src/pages/app-home.ts:65-69 | a new page shows the start position of two spawned tiles |
| Home.AppHome.ResetGame | src/pages/app-home.ts:71-75 | resetting clears the board and spawns two starting tiles |
| Home.AppHome.InitializeBoard | src/pages/app-home.ts:120-123 | two spawns on the empty board give the start position |
| Home.AppHome.AddRandomTile | src/pages/app-home.ts:125-138 | the nested scan collects the empty cells row by row, and the board becomes the spawn of the drawn value into the drawn empty cell, or stays as it is when full |
| Home.AppHome.MoveRowOrColumn | src/pages/app-home.ts:170-189 | the loop's result is the reduced line, with the input's length and total |
| Home.AppHome.MoveLineOfCopy | src/pages/app-home.ts:202-218 | one pass writes line i of the moved board into the copy and reports whether that line changed |
| Home.AppHome.MoveTiles | src/pages/app-home.ts:191-224 | the board becomes the turn: unchanged when no line moves, otherwise the moved board with one tile spawned |

## Left out

- Rendering, styles, touch and keyboard listeners, the router and the header
  are not part of this model: they only call `moveTiles` and `resetGame` or
  draw the board.
- The `setTimeout` and `requestUpdate` calls of `moveTiles` are left out.
  The spawn is modelled as happening right after the moved board is stored.
  The model does not cover a second move that runs before the delayed spawn.
- The probabilities of `Math.random` are left out. The 90% chance of a 2 and
  the uniform choice of a cell become the free parameters `value` and `pick`.
- JavaScript numbers are modelled as unbounded integers. Every value a tile
  can reach (powers of two up to 2^17 on a 4x4 board) is exact in a double.
- Arrays are modelled as values. Two effects of the source's aliasing are
  not modelled: `reverse()` changing `movedRowOrColumn` in place, and a left
  row being stored in `newBoard` as the same array `moveRowOrColumn`
  returned. Neither changes the resulting board, because neither array is
  used again after the aliasing write.
- Home.AppHome.MoveLineOfCopy: this is the body of the loop of `moveTiles`
  as a method of its own, so that the loop is proved one line at a time. The
  source writes it inline.
