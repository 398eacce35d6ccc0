/** Spawning a tile into an empty cell (`addRandomTile`,
    src/pages/app-home.ts:125-138), the two-tile start position
    (`initializeBoard`, :120-123) and one whole turn of the game: a move
    followed, when it changed the board, by a spawn. The two random draws of
    `addRandomTile` are parameters: the position `pick` in the list of empty
    cells and the tile `value`. */
module Spawning {
  import opened Lines
  import opened Grid

  /** A cell position, the `{ row, col }` records of the empty-cell list. */
  datatype Cell = Cell(row: nat, col: nat)

  /** Position of a cell in row-major order. */
  function Index(cell: Cell): nat
  {
    cell.row * Size + cell.col
  }

  /** The cell at row-major position `k`. */
  function CellAt(k: nat): Cell
  {
    Cell(k / Size, k % Size)
  }

  /** The value of the cell at row-major position `k`. */
  function At(b: Board, k: nat): int
    requires IsBoard(b) && k < Size * Size
  {
    b[k / Size][k % Size]
  }

  /** The empty cells among the first `k` cells in row-major order, in that
      order: what the nested loops of `addRandomTile` have collected after
      visiting `k` cells. */
  function EmptyCellsUpTo(b: Board, k: nat): (cells: seq<Cell>)
    requires IsBoard(b) && k <= Size * Size
    ensures |cells| <= k
  {
    if k == 0 then []
    else EmptyCellsUpTo(b, k - 1) + (if At(b, k - 1) == 0 then [CellAt(k - 1)] else [])
  }

  /** All empty cells of the board, in row-major order. */
  function EmptyCells(b: Board): (cells: seq<Cell>)
    requires IsBoard(b)
    ensures |cells| <= Size * Size
  {
    EmptyCellsUpTo(b, Size * Size)
  }

  /** A draw of the index that `addRandomTile` can make: below the number of
      empty cells whenever there is one. */
  predicate ValidPick(b: Board, pick: nat)
    requires IsBoard(b)
  {
    |EmptyCells(b)| == 0 || pick < |EmptyCells(b)|
  }

  /** The board after `addRandomTile` with the given draws: the `pick`-th
      empty cell receives `value`, and a full board is left alone. */
  function Spawn(b: Board, pick: nat, value: int): (s: Board)
    requires IsBoard(b) && ValidPick(b, pick)
    ensures IsBoard(s)
  {
    EmptyCellsSound(b, Size * Size);
    var empty := EmptyCells(b);
    if |empty| == 0 then b
    else
      var cell := empty[pick];
      b[cell.row := b[cell.row][cell.col := value]]
  }

  /** The board `moveTiles` leaves: unchanged when the move changed nothing,
      otherwise the moved board with one tile spawned. */
  function Turn(b: Board, direction: Direction, pick: nat, value: int): (t: Board)
    requires IsBoard(b) && ValidPick(Move(b, direction), pick)
    ensures IsBoard(t)
  {
    var moved := Move(b, direction);
    if moved == b then b else Spawn(moved, pick, value)
  }

  /** The start position: two tiles spawned on the empty board. */
  function InitialBoard(pick1: nat, value1: int, pick2: nat, value2: int): (b: Board)
    requires pick1 < Size * Size && pick2 < Size * Size - 1
    requires value1 == 2 || value1 == 4
    ensures IsBoard(b)
  {
    EmptyBoardCells();
    var first := Spawn(EmptyBoard(), pick1, value1);
    SpawnFillsOneCell(EmptyBoard(), pick1, value1);
    Spawn(first, pick2, value2)
  }

  // ---------------------------------------------------------------------------
  // The empty-cell list

  /** Every cell listed is on the board and empty, and the list is strictly
      increasing in row-major order. */
  lemma {:induction false} EmptyCellsSound(b: Board, k: nat)
    requires IsBoard(b) && k <= Size * Size
    ensures forall m :: 0 <= m < |EmptyCellsUpTo(b, k)| ==>
              var cell := EmptyCellsUpTo(b, k)[m];
              cell.row < Size && cell.col < Size && Index(cell) < k && b[cell.row][cell.col] == 0
    ensures forall m, n :: 0 <= m < n < |EmptyCellsUpTo(b, k)| ==>
              Index(EmptyCellsUpTo(b, k)[m]) < Index(EmptyCellsUpTo(b, k)[n])
  {
    if k > 0 {
      EmptyCellsSound(b, k - 1);
      CellAtIndex(CellAt(k - 1));
    }
  }

  lemma CellAtIndex(cell: Cell)
    requires cell.row < Size && cell.col < Size
    ensures Index(cell) < Size * Size && CellAt(Index(cell)) == cell
  {
  }

  /** One more step of the row-by-row scan. */
  lemma EmptyCellsStep(b: Board, r: nat, c: nat)
    requires IsBoard(b) && r < Size && c < Size
    ensures EmptyCellsUpTo(b, r * Size + c + 1)
            == EmptyCellsUpTo(b, r * Size + c) + (if b[r][c] == 0 then [Cell(r, c)] else [])
  {
    CellAtIndex(Cell(r, c));
  }

  /** Every empty cell of the board is in the list: together with the
      contract of `EmptyCellsUpTo`, the list holds exactly the empty cells. */
  lemma {:induction false} EmptyCellsComplete(b: Board, k: nat)
    requires IsBoard(b) && k <= Size * Size
    ensures forall r, c :: 0 <= r < Size && 0 <= c < Size && Index(Cell(r, c)) < k && b[r][c] == 0
              ==> Cell(r, c) in EmptyCellsUpTo(b, k)
  {
    if k > 0 {
      EmptyCellsComplete(b, k - 1);
      var before := EmptyCellsUpTo(b, k - 1);
      assert EmptyCellsUpTo(b, k) == before + (if At(b, k - 1) == 0 then [CellAt(k - 1)] else []);
      forall r, c | 0 <= r < Size && 0 <= c < Size && Index(Cell(r, c)) < k && b[r][c] == 0
        ensures Cell(r, c) in EmptyCellsUpTo(b, k)
      {
        if Index(Cell(r, c)) == k - 1 {
          CellAtIndex(Cell(r, c));
          assert At(b, k - 1) == 0;
        } else {
          assert Cell(r, c) in before;
        }
      }
    }
  }

  /** The list is empty exactly when the board has no empty cell. */
  lemma EmptyCellsNone(b: Board)
    requires IsBoard(b)
    ensures |EmptyCells(b)| == 0 <==> forall r, c :: 0 <= r < Size && 0 <= c < Size ==> b[r][c] != 0
  {
    EmptyCellsComplete(b, Size * Size);
    EmptyCellsSound(b, Size * Size);
    if |EmptyCells(b)| > 0 {
      var cell := EmptyCells(b)[0];
      assert b[cell.row][cell.col] == 0;
    }
    forall r, c | 0 <= r < Size && 0 <= c < Size && b[r][c] == 0 ensures |EmptyCells(b)| > 0 {
      CellAtIndex(Cell(r, c));
      assert Cell(r, c) in EmptyCells(b);
    }
  }

  /** All 16 cells of the empty board are listed. */
  lemma EmptyBoardCells()
    ensures |EmptyCells(EmptyBoard())| == Size * Size
  {
    EmptyBoardCellsUpTo(Size * Size);
  }

  lemma {:induction false} EmptyBoardCellsUpTo(k: nat)
    requires k <= Size * Size
    ensures |EmptyCellsUpTo(EmptyBoard(), k)| == k
  {
    if k > 0 {
      EmptyBoardCellsUpTo(k - 1);
    }
  }

  /** Filling one listed empty cell with a tile takes exactly that cell out of
      the list's count. */
  lemma {:induction false} FillOneCellUpTo(b: Board, b': Board, q: nat, k: nat)
    requires IsBoard(b) && IsBoard(b') && q < Size * Size && k <= Size * Size
    requires At(b, q) == 0 && At(b', q) != 0
    requires forall j :: 0 <= j < Size * Size && j != q ==> At(b', j) == At(b, j)
    ensures |EmptyCellsUpTo(b', k)| + (if q < k then 1 else 0) == |EmptyCellsUpTo(b, k)|
  {
    if k > 0 {
      FillOneCellUpTo(b, b', q, k - 1);
    }
  }

  // ---------------------------------------------------------------------------
  // Spawning

  /** A board without an empty cell is left as it is; otherwise exactly one
      cell changes: the chosen empty cell, which receives the drawn value. */
  lemma SpawnEffect(b: Board, pick: nat, value: int)
    requires IsBoard(b) && ValidPick(b, pick)
    ensures (forall r, c :: 0 <= r < Size && 0 <= c < Size ==> b[r][c] != 0) ==> Spawn(b, pick, value) == b
    ensures |EmptyCells(b)| > 0 ==>
              var cell := EmptyCells(b)[pick];
              cell.row < Size && cell.col < Size && b[cell.row][cell.col] == 0
              && Spawn(b, pick, value)[cell.row][cell.col] == value
              && forall r, c :: 0 <= r < Size && 0 <= c < Size && (r != cell.row || c != cell.col)
                   ==> Spawn(b, pick, value)[r][c] == b[r][c]
  {
    EmptyCellsNone(b);
    EmptyCellsSound(b, Size * Size);
  }

  /** After a spawn with a tile value the list of empty cells is one shorter. */
  lemma SpawnFillsOneCell(b: Board, pick: nat, value: int)
    requires IsBoard(b) && ValidPick(b, pick) && value != 0
    requires |EmptyCells(b)| > 0
    ensures |EmptyCells(Spawn(b, pick, value))| == |EmptyCells(b)| - 1
  {
    EmptyCellsSound(b, Size * Size);
    var cell := EmptyCells(b)[pick];
    CellAtIndex(cell);
    var s := Spawn(b, pick, value);
    forall j | 0 <= j < Size * Size && j != Index(cell) ensures At(s, j) == At(b, j) {
      assert CellAt(j) != cell;
    }
    FillOneCellUpTo(b, s, Index(cell), Size * Size);
  }

  /** A spawn of a tile adds one tile and its value to the board total, or
      nothing when the board is full. */
  lemma SpawnCounts(b: Board, pick: nat, value: int)
    requires IsBoard(b) && ValidPick(b, pick) && value != 0
    ensures TileCount(Spawn(b, pick, value)) == TileCount(b) + (if |EmptyCells(b)| > 0 then 1 else 0)
    ensures BoardSum(Spawn(b, pick, value)) == BoardSum(b) + (if |EmptyCells(b)| > 0 then value else 0)
  {
    EmptyCellsSound(b, Size * Size);
    if |EmptyCells(b)| > 0 {
      var cell := EmptyCells(b)[pick];
      var row := b[cell.row][cell.col := value];
      assert Spawn(b, pick, value) == b[cell.row := row];
      LineUpdate(b[cell.row], cell.col, value);
      BoardUpdate(b, cell.row, row);
    }
  }

  /** Changing one cell of a line changes its total and its tile count by
      the difference at that cell. */
  lemma {:induction false} LineUpdate(s: seq<int>, c: nat, v: int)
    requires c < |s|
    ensures Sum(s[c := v]) == Sum(s) - s[c] + v
    ensures Count(s[c := v]) == Count(s) - Occupied(s[c]) + Occupied(v)
  {
    if c > 0 {
      LineUpdate(s[1..], c - 1, v);
      assert s[c := v][1..] == s[1..][c - 1 := v];
    }
  }

  /** Changing one row of a board changes its total and its tile count by
      the difference at that row. */
  lemma {:induction false} BoardUpdate(b: Board, r: nat, row: seq<int>)
    requires r < |b|
    ensures BoardSum(b[r := row]) == BoardSum(b) - Sum(b[r]) + Sum(row)
    ensures TileCount(b[r := row]) == TileCount(b) - Count(b[r]) + Count(row)
  {
    if r > 0 {
      BoardUpdate(b[1..], r - 1, row);
      assert b[r := row][1..] == b[1..][r - 1 := row];
    }
  }

  /** A spawn of 2 or 4 keeps every cell empty or a tile value. */
  lemma SpawnKeepsCells(b: Board, pick: nat, value: int)
    requires IsBoard(b) && ValidPick(b, pick) && AllCells(b)
    requires value == 2 || value == 4
    ensures AllCells(Spawn(b, pick, value))
  {
    assert IsTileValue(4) by { assert IsTileValue(2); }
  }

  // ---------------------------------------------------------------------------
  // A turn and the start position

  /** A turn whose move changes nothing leaves the board exactly as it was and
      spawns nothing. A turn whose move changes the board always finds an
      empty cell for its spawn: the board total grows by the spawned value
      alone, and the tile count falls by the merges and rises by one. */
  lemma TurnFacts(b: Board, direction: Direction, pick: nat, value: int)
    requires IsBoard(b) && ValidPick(Move(b, direction), pick)
    requires value == 2 || value == 4
    ensures Move(b, direction) == b ==> Turn(b, direction, pick, value) == b
    ensures Move(b, direction) != b ==>
              && |EmptyCells(Move(b, direction))| > 0
              && BoardSum(Turn(b, direction, pick, value)) == BoardSum(b) + value
              && TileCount(Turn(b, direction, pick, value)) + TotalMerges(b, direction) == TileCount(b) + 1
    ensures AllCells(b) ==> AllCells(Turn(b, direction, pick, value))
  {
    if Move(b, direction) == b {
      assert Turn(b, direction, pick, value) == b;
    } else {
      TurnChanged(b, direction, pick, value);
    }
    if AllCells(b) {
      TurnKeepsCells(b, direction, pick, value);
    }
  }

  lemma TurnChanged(b: Board, direction: Direction, pick: nat, value: int)
    requires IsBoard(b) && ValidPick(Move(b, direction), pick)
    requires value == 2 || value == 4
    requires Move(b, direction) != b
    ensures |EmptyCells(Move(b, direction))| > 0
    ensures BoardSum(Turn(b, direction, pick, value)) == BoardSum(b) + value
    ensures TileCount(Turn(b, direction, pick, value)) + TotalMerges(b, direction) == TileCount(b) + 1
  {
    var moved := Move(b, direction);
    assert |EmptyCells(moved)| > 0 by {
      MovedBoardHasEmptyCell(b, direction);
      EmptyCellsNone(moved);
    }
    assert Turn(b, direction, pick, value) == Spawn(moved, pick, value);
    SpawnCounts(moved, pick, value);
    MoveConserves(b, direction);
  }

  lemma TurnKeepsCells(b: Board, direction: Direction, pick: nat, value: int)
    requires IsBoard(b) && ValidPick(Move(b, direction), pick) && AllCells(b)
    requires value == 2 || value == 4
    ensures AllCells(Turn(b, direction, pick, value))
  {
    MoveKeepsCells(b, direction);
    SpawnKeepsCells(Move(b, direction), pick, value);
  }

  /** The start position has exactly two tiles, each 2 or 4, on an otherwise
      empty board. */
  lemma InitialBoardShape(pick1: nat, value1: int, pick2: nat, value2: int)
    requires pick1 < Size * Size && pick2 < Size * Size - 1
    requires value1 == 2 || value1 == 4
    requires value2 == 2 || value2 == 4
    ensures TileCount(InitialBoard(pick1, value1, pick2, value2)) == 2
    ensures forall r, c :: 0 <= r < Size && 0 <= c < Size ==>
              var v := InitialBoard(pick1, value1, pick2, value2)[r][c];
              v == 0 || v == 2 || v == 4
  {
    var empty := EmptyBoard();
    EmptyBoardCells();
    var first := Spawn(empty, pick1, value1);
    assert |EmptyCells(first)| == Size * Size - 1 by {
      SpawnFillsOneCell(empty, pick1, value1);
    }
    var last := Spawn(first, pick2, value2);
    assert last == InitialBoard(pick1, value1, pick2, value2);
    assert TileCount(first) == 1 by {
      EmptyBoardTotals();
      SpawnCounts(empty, pick1, value1);
    }
    assert TileCount(last) == 2 by {
      SpawnCounts(first, pick2, value2);
    }
    assert forall r, c :: 0 <= r < Size && 0 <= c < Size ==> first[r][c] == 0 || first[r][c] == value1 by {
      SpawnEffect(empty, pick1, value1);
    }
    assert forall r, c :: 0 <= r < Size && 0 <= c < Size ==>
             last[r][c] == first[r][c] || last[r][c] == value2 by {
      SpawnEffect(first, pick2, value2);
    }
  }

  /** The empty board holds no tile. */
  lemma EmptyBoardTotals()
    ensures TileCount(EmptyBoard()) == 0
  {
    ZerosFacts(Size);
    ZeroRows(EmptyBoard());
  }

  lemma {:induction false} ZeroRows(b: Board)
    requires forall r :: 0 <= r < |b| ==> Count(b[r]) == 0
    ensures TileCount(b) == 0
  {
    if b != [] {
      ZeroRows(b[1..]);
    }
  }
}
