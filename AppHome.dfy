/** The `AppHome` page component (src/pages/app-home.ts:7-224) reduced to its
    game state: the board field and the methods that change it, each proved
    against the functions of `Lines`, `Grid` and `Spawning`. */
module Home {
  import opened Lines
  import opened Grid
  import opened Spawning

  /** The index of the line through cell (`r`, `c`) that a move in
      `direction` works on: its column for up and down, its row otherwise. */
  function LineIndex(direction: Direction, r: nat, c: nat): nat
  {
    if direction == Up || direction == Down then c else r
  }

  /** What one pass of the loop of `moveTiles` computes for line `i`: the
      change test compares the extracted line with the final one exactly when
      the move changes that line, and the values written back are the moved
      board's. */
  lemma WrittenLine(b: Board, direction: Direction, i: nat, rowOrColumn: seq<int>, final: seq<int>)
    requires IsBoard(b) && i < Size
    requires rowOrColumn == if direction == Up || direction == Down then Column(b, i)
                            else if direction == Left then b[i]
                            else Reverse(b[i])
    requires final == if direction == Right then Reverse(Reduce(rowOrColumn, direction)) else Reduce(rowOrColumn, direction)
    ensures |final| == Size
    ensures rowOrColumn != final <==> LineMoves(b, direction, i)
    ensures forall r, c :: 0 <= r < Size && 0 <= c < Size && LineIndex(direction, r, c) == i ==>
              Move(b, direction)[r][c] == if direction == Up || direction == Down then final[r]
                                          else if direction == Left then final[c]
                                          else Reverse(final)[c]
    ensures rowOrColumn == final ==>
              forall r, c :: 0 <= r < Size && 0 <= c < Size && LineIndex(direction, r, c) == i ==>
                Move(b, direction)[r][c] == b[r][c]
  {
    var line := Line(b, direction, i);
    assert Shift(line, direction) == (if direction == Right then Reverse(final) else final);
    if direction == Right {
      ReverseReverse(line);
      ReverseReverse(final);
    }
    MoveLine(b, direction, i);
  }

  /** Whether a move in `direction` changes line `k` of `b`. */
  ghost predicate LineMoves(b: Board, direction: Direction, k: nat)
    requires IsBoard(b) && k < Size
  {
    Shift(Line(b, direction, k), direction) != Line(b, direction, k)
  }

  /** The inner loop of `moveTiles` for up and down: writes `column` into
      column `i` of `b` cell by cell, top to bottom. */
  method WriteColumn(b: Board, i: nat, column: seq<int>) returns (written: Board)
    requires IsBoard(b) && i < Size && |column| == Size
    ensures IsBoard(written)
    ensures forall r, c :: 0 <= r < Size && 0 <= c < Size ==>
              written[r][c] == if c == i then column[r] else b[r][c]
  {
    written := b;
    for rowIndex := 0 to Size
      invariant IsBoard(written)
      invariant forall r, c :: 0 <= r < Size && 0 <= c < Size ==>
                  written[r][c] == if c == i && r < rowIndex then column[r] else b[r][c]
    {
      written := written[rowIndex := written[rowIndex][i := column[rowIndex]]];
    }
  }

  /** `built` holds the moved board's lines before `i` and the board's own
      lines from `i` on. */
  ghost predicate Built(built: Board, b: Board, direction: Direction, i: nat)
    requires IsBoard(built) && IsBoard(b)
  {
    forall r, c :: 0 <= r < Size && 0 <= c < Size ==>
      built[r][c] == if LineIndex(direction, r, c) < i then Move(b, direction)[r][c] else b[r][c]
  }

  /** `after` is `before` with line `i` replaced by the line `final` as the
      loop of `moveTiles` writes it back. */
  ghost predicate WroteLine(before: Board, after: Board, direction: Direction, i: nat, final: seq<int>)
    requires IsBoard(before) && IsBoard(after) && |final| == Size
  {
    forall r, c :: 0 <= r < Size && 0 <= c < Size ==>
      after[r][c] == if LineIndex(direction, r, c) != i then before[r][c]
                     else if direction == Up || direction == Down then final[r]
                     else if direction == Left then final[c]
                     else Reverse(final)[c]
  }

  /** Writing a row back (left, or right with the final line reversed once
      more) replaces line `i` with the final line. */
  lemma WriteRow(before: Board, after: Board, direction: Direction, i: nat, final: seq<int>)
    requires IsBoard(before) && i < Size && |final| == Size
    requires direction == Left || direction == Right
    requires after == before[i := if direction == Left then final else Reverse(final)]
    ensures IsBoard(after)
    ensures WroteLine(before, after, direction, i, final)
  {
  }

  /** One pass of the loop of `moveTiles`: writing line `i` back when it
      changed extends the part of the copy that agrees with the moved board,
      and the change test detects exactly the lines the move changes. */
  lemma LineStep(before: Board, after: Board, b: Board, direction: Direction, i: nat, rowOrColumn: seq<int>, final: seq<int>)
    requires IsBoard(before) && IsBoard(after) && IsBoard(b) && i < Size
    requires rowOrColumn == if direction == Up || direction == Down then Column(b, i)
                            else if direction == Left then b[i]
                            else Reverse(b[i])
    requires final == if direction == Right then Reverse(Reduce(rowOrColumn, direction)) else Reduce(rowOrColumn, direction)
    requires Built(before, b, direction, i)
    requires |final| == Size
    requires if rowOrColumn != final then WroteLine(before, after, direction, i, final) else after == before
    ensures Built(after, b, direction, i + 1)
    ensures rowOrColumn != final <==> LineMoves(b, direction, i)
  {
    WrittenLine(b, direction, i, rowOrColumn, final);
  }

  /** Once every line is written, the copy is the moved board. */
  lemma BuiltAll(built: Board, b: Board, direction: Direction)
    requires IsBoard(built) && IsBoard(b)
    requires Built(built, b, direction, Size)
    ensures built == Move(b, direction)
  {
    forall r | 0 <= r < Size ensures built[r] == Move(b, direction)[r] {
      assert forall c :: 0 <= c < Size ==> built[r][c] == Move(b, direction)[r][c];
    }
  }

  /** The move is a no-op exactly when it changes no line. */
  lemma NoLineMoves(b: Board, direction: Direction)
    requires IsBoard(b)
    ensures Move(b, direction) == b <==> !exists k :: 0 <= k < Size && LineMoves(b, direction, k)
  {
    MoveUnchanged(b, direction);
    if exists k :: 0 <= k < Size && LineMoves(b, direction, k) {
      var k :| 0 <= k < Size && LineMoves(b, direction, k);
      assert Shift(Line(b, direction, k), direction) != Line(b, direction, k);
    } else {
      forall k | 0 <= k < Size ensures Shift(Line(b, direction, k), direction) == Line(b, direction, k) {
        assert !LineMoves(b, direction, k);
      }
    }
  }

  /** The flag `moved` after one more pass of the loop of `moveTiles`. */
  lemma MovedStep(b: Board, direction: Direction, i: nat, movedBefore: bool, lineMoved: bool)
    requires IsBoard(b) && i < Size
    requires movedBefore <==> exists k :: 0 <= k < i && LineMoves(b, direction, k)
    requires lineMoved <==> LineMoves(b, direction, i)
    ensures movedBefore || lineMoved <==> exists k :: 0 <= k < i + 1 && LineMoves(b, direction, k)
  {
  }

  class AppHome {
    /** The board the page shows, as rows of cells. */
    var board: Board

    ghost predicate Valid()
      reads this
    {
      IsBoard(board)
    }

    /** Construction: the all-empty board of the field initialiser, then the
        two starting tiles. */
    constructor (pick1: nat, value1: int, pick2: nat, value2: int)
      requires pick1 < Size * Size && pick2 < Size * Size - 1
      requires value1 == 2 || value1 == 4
      requires value2 == 2 || value2 == 4
      ensures Valid()
      ensures board == InitialBoard(pick1, value1, pick2, value2)
    {
      board := EmptyBoard();
      new;
      InitializeBoard(pick1, value1, pick2, value2);
    }

    /** Back to an empty board with two fresh starting tiles. */
    method ResetGame(pick1: nat, value1: int, pick2: nat, value2: int)
      requires pick1 < Size * Size && pick2 < Size * Size - 1
      requires value1 == 2 || value1 == 4
      requires value2 == 2 || value2 == 4
      modifies this
      ensures Valid()
      ensures board == InitialBoard(pick1, value1, pick2, value2)
    {
      board := EmptyBoard();
      InitializeBoard(pick1, value1, pick2, value2);
    }

    /** Two spawns on the empty board. */
    method InitializeBoard(pick1: nat, value1: int, pick2: nat, value2: int)
      requires board == EmptyBoard()
      requires pick1 < Size * Size && pick2 < Size * Size - 1
      requires value1 == 2 || value1 == 4
      requires value2 == 2 || value2 == 4
      modifies this
      ensures Valid()
      ensures board == InitialBoard(pick1, value1, pick2, value2)
    {
      EmptyBoardCells();
      AddRandomTile(pick1, value1);
      SpawnFillsOneCell(EmptyBoard(), pick1, value1);
      AddRandomTile(pick2, value2);
    }

    /** Collects the empty cells row by row, then puts `value` into the
        `pick`-th of them; a full board is left alone. */
    method AddRandomTile(pick: nat, value: int)
      requires Valid() && ValidPick(board, pick)
      requires value == 2 || value == 4
      modifies this
      ensures Valid()
      ensures board == Spawn(old(board), pick, value)
    {
      var emptyCells: seq<Cell> := [];
      var i := 0;
      while i < |board|
        invariant board == old(board)
        invariant 0 <= i <= Size
        invariant emptyCells == EmptyCellsUpTo(board, i * Size)
      {
        var j := 0;
        while j < |board[i]|
          invariant board == old(board)
          invariant 0 <= j <= Size
          invariant emptyCells == EmptyCellsUpTo(board, i * Size + j)
        {
          EmptyCellsStep(board, i, j);
          if board[i][j] == 0 {
            emptyCells := emptyCells + [Cell(i, j)];
          }
          j := j + 1;
        }
        assert i * Size + Size == (i + 1) * Size;
        i := i + 1;
      }
      assert emptyCells == EmptyCells(board);
      EmptyCellsSound(board, Size * Size);
      if |emptyCells| > 0 {
        var cell := emptyCells[pick];
        board := board[cell.row := board[cell.row][cell.col := value]];
      }
    }

    /** Reduces one line: drops the empty cells, merges equal neighbours front
        to back with each tile merged at most once, and pads with zeros at the
        back (up, left) or the front (down, right; reversed for right). */
    method MoveRowOrColumn(rowOrColumn: seq<int>, direction: Direction) returns (result: seq<int>)
      ensures result == Reduce(rowOrColumn, direction)
      ensures |result| == |rowOrColumn| && Sum(result) == Sum(rowOrColumn)
    {
      var nonZeroValues := NonZero(rowOrColumn);
      var resultRowOrColumn: seq<int> := [];
      var i := 0;
      while i < |nonZeroValues|
        invariant 0 <= i <= |nonZeroValues|
        invariant resultRowOrColumn + Merge(nonZeroValues[i..]) == Merge(nonZeroValues)
      {
        ghost var rest := nonZeroValues[i..];
        ghost var done := resultRowOrColumn;
        if i < |nonZeroValues| - 1 && nonZeroValues[i] == nonZeroValues[i + 1] {
          resultRowOrColumn := resultRowOrColumn + [nonZeroValues[i] * 2];
          assert resultRowOrColumn + Merge(nonZeroValues[i + 2..]) == Merge(nonZeroValues) by {
            assert rest[2..] == nonZeroValues[i + 2..];
            assert Merge(rest) == [nonZeroValues[i] * 2] + Merge(nonZeroValues[i + 2..]);
            assert done + Merge(rest) == resultRowOrColumn + Merge(nonZeroValues[i + 2..]);
          }
          i := i + 1;
        } else {
          resultRowOrColumn := resultRowOrColumn + [nonZeroValues[i]];
          assert resultRowOrColumn + Merge(nonZeroValues[i + 1..]) == Merge(nonZeroValues) by {
            assert rest[1..] == nonZeroValues[i + 1..];
            assert Merge(rest) == [nonZeroValues[i]] + Merge(nonZeroValues[i + 1..]);
            assert done + Merge(rest) == resultRowOrColumn + Merge(nonZeroValues[i + 1..]);
          }
        }
        i := i + 1;
      }
      assert resultRowOrColumn == Merge(nonZeroValues) by {
        assert nonZeroValues[i..] == [];
      }
      var zerosCount := |rowOrColumn| - |resultRowOrColumn|;
      var zerosArray := Zeros(zerosCount);
      if direction == Up || direction == Left {
        result := resultRowOrColumn + zerosArray;
      } else {
        result := if direction == Right then zerosArray + Reverse(resultRowOrColumn) else zerosArray + resultRowOrColumn;
      }
      assert Sum(result) == Sum(rowOrColumn) by {
        ReduceShape(rowOrColumn, direction);
      }
    }

    /** Moves every line of a copy of the board, writing back only the lines
        that changed; only when some line changed does the copy become the
        board, followed by a spawn. */
    method MoveTiles(direction: Direction, pick: nat, value: int)
      requires Valid() && ValidPick(Move(board, direction), pick)
      requires value == 2 || value == 4
      modifies this
      ensures Valid()
      ensures board == Turn(old(board), direction, pick, value)
    {
      var newBoard := board;
      var moved := false;
      for i := 0 to |board|
        invariant board == old(board)
        invariant IsBoard(newBoard)
        invariant moved <==> exists k :: 0 <= k < i && LineMoves(board, direction, k)
        invariant Built(newBoard, board, direction, i)
      {
        ghost var movedBefore := moved;
        var lineMoved;
        newBoard, lineMoved := MoveLineOfCopy(newBoard, direction, i);
        if lineMoved {
          moved := true;
        }
        MovedStep(board, direction, i, movedBefore, lineMoved);
      }
      NoLineMoves(board, direction);
      if moved {
        BuiltAll(newBoard, board, direction);
        board := newBoard;
        AddRandomTile(pick, value);
      }
    }

    /** One pass of the loop of `moveTiles`: moves line `i` of the board and
        writes it into the copy `newBoard` when it changed. */
    method MoveLineOfCopy(newBoard: Board, direction: Direction, i: nat) returns (written: Board, lineMoved: bool)
      requires Valid() && IsBoard(newBoard) && i < Size
      requires Built(newBoard, board, direction, i)
      ensures IsBoard(written)
      ensures Built(written, board, direction, i + 1)
      ensures lineMoved <==> LineMoves(board, direction, i)
    {
      var rowOrColumn := if direction == Up || direction == Down then Column(board, i)
                         else if direction == Left then board[i]
                         else Reverse(board[i]);
      var movedRowOrColumn := MoveRowOrColumn(rowOrColumn, direction);
      var finalRowOrColumn := if direction == Right then Reverse(movedRowOrColumn) else movedRowOrColumn;
      written := newBoard;
      lineMoved := rowOrColumn != finalRowOrColumn;
      if lineMoved {
        if direction == Up || direction == Down {
          written := WriteColumn(newBoard, i, finalRowOrColumn);
          assert WroteLine(newBoard, written, direction, i, finalRowOrColumn);
        } else {
          written := newBoard[i := if direction == Left then finalRowOrColumn else Reverse(finalRowOrColumn)];
          WriteRow(newBoard, written, direction, i, finalRowOrColumn);
        }
      }
      LineStep(newBoard, written, board, direction, i, rowOrColumn, finalRowOrColumn);
    }
  }
}
