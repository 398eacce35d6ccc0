/** The board move of the 2048 page (`moveTiles`, src/pages/app-home.ts:191-224)
    as functions on a 4x4 board, with its sum, tile-count, no-op and symmetry
    facts. */
module Grid {
  import opened Lines

  /** Rows and columns of the board. */
  const Size: nat := 4

  /** The board, as rows read left to right, top row first. */
  type Board = seq<seq<int>>

  predicate IsBoard(b: Board)
  {
    |b| == Size && forall r :: 0 <= r < Size ==> |b[r]| == Size
  }

  /** Every cell is empty or holds a tile value. */
  predicate AllCells(b: Board)
    requires IsBoard(b)
  {
    forall r, c :: 0 <= r < Size && 0 <= c < Size ==> IsCell(b[r][c])
  }

  /** The all-empty board the page starts from and resets to. */
  function EmptyBoard(): (b: Board)
    ensures IsBoard(b)
    ensures forall r, c :: 0 <= r < Size && 0 <= c < Size ==> b[r][c] == 0
  {
    seq(Size, _ => Zeros(Size))
  }

  /** Column `c`, read top to bottom: `board.map(row => row[c])`. */
  function Column(b: Board, c: nat): (col: seq<int>)
    requires IsBoard(b) && c < Size
    ensures |col| == Size
  {
    seq(Size, r requires 0 <= r < Size => b[r][c])
  }

  /** Line `i` of a move in `direction`, as it lies on the board: column `i`
      for up and down, row `i` for left and right. */
  function Line(b: Board, direction: Direction, i: nat): (line: seq<int>)
    requires IsBoard(b) && i < Size
    ensures |line| == Size
  {
    if direction == Up || direction == Down then Column(b, i) else b[i]
  }

  /** What the move writes back for one line given as it lies on the board:
      the line is reversed for right before it is reduced, the reduced line
      is reversed back, and reversed again as it is written into the row. */
  function Shift(line: seq<int>, direction: Direction): (r: seq<int>)
    ensures |r| == |line|
  {
    var rowOrColumn := if direction == Right then Reverse(line) else line;
    var moved := Reduce(rowOrColumn, direction);
    var final := if direction == Right then Reverse(moved) else moved;
    if direction == Right then Reverse(final) else final
  }

  /** The board `moveTiles` assembles: every line shifted in place. */
  function Move(b: Board, direction: Direction): (m: Board)
    requires IsBoard(b)
    ensures IsBoard(m)
  {
    seq(Size, r requires 0 <= r < Size =>
      seq(Size, c requires 0 <= c < Size =>
        if direction == Up || direction == Down then Shift(Column(b, c), direction)[r]
        else Shift(b[r], direction)[c]))
  }

  /** A line the move leaves alone: tiles already packed toward the move's
      edge (the top or left for up and left, the bottom or right for down and
      right) and no two neighbouring tiles equal. */
  predicate Stuck(line: seq<int>, direction: Direction)
  {
    (if direction == Up || direction == Left then PackedFront(line) else PackedBack(line))
    && NoEqualNeighbours(NonZero(line))
  }

  /** Merges performed on one line. */
  function LineMerges(line: seq<int>, direction: Direction): nat
  {
    Merges(NonZero(if direction == Right then Reverse(line) else line))
  }

  /** Merges performed on the whole board. */
  function TotalMerges(b: Board, direction: Direction): nat
    requires IsBoard(b)
  {
    LineMerges(Line(b, direction, 0), direction) + LineMerges(Line(b, direction, 1), direction)
    + LineMerges(Line(b, direction, 2), direction) + LineMerges(Line(b, direction, 3), direction)
  }

  function BoardSum(b: Board): int
  {
    if b == [] then 0 else Sum(b[0]) + BoardSum(b[1..])
  }

  /** Number of tiles on the board. */
  function TileCount(b: Board): nat
  {
    if b == [] then 0 else Count(b[0]) + TileCount(b[1..])
  }

  /** The board seen in a mirror: every row reversed. */
  function Mirror(b: Board): (m: Board)
    requires IsBoard(b)
    ensures IsBoard(m)
  {
    seq(Size, r requires 0 <= r < Size => Reverse(b[r]))
  }

  /** The board upside down: the row order reversed. */
  function Flip(b: Board): (f: Board)
    requires IsBoard(b)
    ensures IsBoard(f)
  {
    seq(Size, r requires 0 <= r < Size => b[Size - 1 - r])
  }

  // ---------------------------------------------------------------------------
  // One line

  /** For right, the three reversals come down to reducing the reversed row. */
  lemma ShiftRight(line: seq<int>)
    ensures Shift(line, Right) == Reduce(Reverse(line), Right)
  {
    ReverseReverse(Reduce(Reverse(line), Right));
  }

  /** A right move on a row is the mirror image of a left move on the
      mirrored row. */
  lemma ShiftRightMirrorsLeft(line: seq<int>)
    ensures Shift(line, Right) == Reverse(Shift(Reverse(line), Left))
  {
    ShiftRight(line);
    var rev := Reverse(line);
    var merged := Merge(NonZero(rev));
    var zeros := Zeros(|line| - |merged|);
    assert Reduce(rev, Right) == zeros + Reverse(merged);
    assert Shift(rev, Left) == merged + zeros;
    ReverseConcat(merged, zeros);
    assert Reverse(zeros) == zeros;
  }

  /** Down keeps the order that up produces, with the zeros on top instead of
      underneath: the tiles pair off from the top of the column. */
  lemma ShiftDownKeepsUpOrder(line: seq<int>)
    ensures Shift(line, Down) == Zeros(|line| - |NonZero(Shift(line, Up))|) + NonZero(Shift(line, Up))
  {
    var merged := Merge(NonZero(line));
    var zeros := Zeros(|line| - |merged|);
    MergeLength(NonZero(line));
    MergeNonZero(NonZero(line));
    PiecesFacts(merged, zeros, merged + zeros);
  }

  /** Total, tile count and cell values of a shifted line. */
  lemma ShiftFacts(line: seq<int>, direction: Direction)
    ensures Sum(Shift(line, direction)) == Sum(line)
    ensures Count(Shift(line, direction)) + LineMerges(line, direction) == Count(line)
    ensures (forall k :: 0 <= k < |line| ==> IsCell(line[k])) ==>
              forall k :: 0 <= k < |line| ==> IsCell(Shift(line, direction)[k])
  {
    if direction == Right {
      ShiftRightCounts(line);
    } else {
      ReduceShape(line, direction);
    }
    if forall k :: 0 <= k < |line| ==> IsCell(line[k]) {
      ShiftKeepsCells(line, direction);
    }
  }

  lemma ShiftRightCounts(line: seq<int>)
    ensures Sum(Shift(line, Right)) == Sum(line)
    ensures Count(Shift(line, Right)) + LineMerges(line, Right) == Count(line)
  {
    var rev := Reverse(line);
    ShiftRight(line);
    assert Sum(Reduce(rev, Right)) == Sum(rev) && Count(Reduce(rev, Right)) + Merges(NonZero(rev)) == Count(rev) by {
      ReduceShape(rev, Right);
    }
    ReverseCounts(line);
    CountReverse(line);
  }

  lemma ShiftKeepsCells(line: seq<int>, direction: Direction)
    requires forall k :: 0 <= k < |line| ==> IsCell(line[k])
    ensures forall k :: 0 <= k < |line| ==> IsCell(Shift(line, direction)[k])
  {
    if direction == Right {
      var rev := Reverse(line);
      assert forall k :: 0 <= k < |rev| ==> IsCell(rev[k]) by {
        forall k | 0 <= k < |rev| ensures IsCell(rev[k]) {
          assert rev[k] == line[|line| - 1 - k];
        }
      }
      ReduceKeepsCells(rev, Right);
      assert Shift(line, Right) == Reduce(rev, Right) by {
        ShiftRight(line);
      }
    } else {
      ReduceKeepsCells(line, direction);
    }
  }

  lemma CountReverse(s: seq<int>)
    ensures Count(Reverse(s)) == Count(s)
  {
    ReverseCounts(s);
    assert |NonZero(Reverse(s))| == |Reverse(NonZero(s))|;
  }

  lemma PackedReverse(s: seq<int>)
    ensures PackedFront(Reverse(s)) <==> PackedBack(s)
  {
    var n := |s|;
    var r := Reverse(s);
    if PackedFront(r) {
      forall i, j | 0 <= i < j < n && s[j] == 0 ensures s[i] == 0 {
        assert r[n - 1 - j] == s[j] && r[n - 1 - i] == s[i];
      }
    }
    if PackedBack(s) {
      forall i, j | 0 <= i < j < n && r[i] == 0 ensures r[j] == 0 {
        assert r[i] == s[n - 1 - i] && r[j] == s[n - 1 - j];
      }
    }
  }

  lemma NoEqualNeighboursReverse(d: seq<int>)
    ensures NoEqualNeighbours(Reverse(d)) <==> NoEqualNeighbours(d)
  {
    var n := |d|;
    var r := Reverse(d);
    if NoEqualNeighbours(r) {
      forall k | 0 <= k < n - 1 ensures d[k] != d[k + 1] {
        assert r[n - 2 - k] == d[k + 1] && r[n - 1 - k] == d[k];
      }
    }
    if NoEqualNeighbours(d) {
      forall k | 0 <= k < n - 1 ensures r[k] != r[k + 1] {
        assert r[k] == d[n - 1 - k] && r[k + 1] == d[n - 2 - k];
      }
    }
  }

  /** A move leaves a line as it is exactly when the line is stuck. */
  lemma ShiftNoOp(line: seq<int>, direction: Direction)
    ensures Shift(line, direction) == line <==> Stuck(line, direction)
  {
    if direction == Up || direction == Left {
      ReduceLeftNoOp(line);
      assert Reduce(line, direction) == Reduce(line, Left);
    } else if direction == Down {
      ReduceDownNoOp(line);
    } else {
      var rev := Reverse(line);
      ShiftRightMirrorsLeft(line);
      ReduceLeftNoOp(rev);
      ReverseReverse(line);
      ReverseReverse(Shift(rev, Left));
      PackedReverse(line);
      ReverseCounts(line);
      NoEqualNeighboursReverse(NonZero(line));
    }
  }

  /** A shifted line without an empty cell is the line itself: whenever a
      move changes a line, that line ends up with an empty cell. */
  lemma ShiftFull(line: seq<int>, direction: Direction)
    requires forall k :: 0 <= k < |line| ==> Shift(line, direction)[k] != 0
    ensures Shift(line, direction) == line
  {
    var s := Shift(line, direction);
    assert Count(s) == |line| by { NonZeroOfTiles(s); }
    ShiftFacts(line, direction);
    assert Count(line) <= |line| by { assert |NonZero(line)| == Count(line); }
    FullLine(line);
    StuckWithoutMerges(line, direction);
    ShiftNoOp(line, direction);
  }

  /** A line of tiles only on which the move merges nothing is stuck. */
  lemma StuckWithoutMerges(line: seq<int>, direction: Direction)
    requires forall k :: 0 <= k < |line| ==> line[k] != 0
    requires LineMerges(line, direction) == 0
    ensures Stuck(line, direction)
  {
    NonZeroOfTiles(line);
    if direction == Right {
      ReverseCounts(line);
      MergeIdentity(Reverse(line));
      NoEqualNeighboursReverse(line);
    } else {
      MergeIdentity(line);
    }
  }

  /** A right move on the row `[2,0,0,2]` gives `[0,0,0,4]`. */
  lemma RightExampleApart()
    ensures Shift([2, 0, 0, 2], Right) == [0, 0, 0, 4]
  {
    var row := [2, 0, 0, 2];
    assert Reverse(row) == row;
    assert NonZero(row) == [2, 2] by {
      assert row == [2] + Zeros(2) + [2];
      NonZeroConcat([2] + Zeros(2), [2]);
      NonZeroConcat([2], Zeros(2));
      ZerosFacts(2);
    }
    assert Merge([2, 2]) == [4] by {
      assert [2, 2][2..] == [];
    }
    assert Reduce(row, Right) == [0, 0, 0, 4] by {
      assert Reverse([4]) == [4];
      assert Zeros(3) == [0, 0, 0];
    }
    ShiftRight(row);
  }

  /** A right move on the row `[2,2,2,0]` gives `[0,0,2,4]`: the pair next to
      the right edge merges. */
  lemma RightExampleTriple()
    ensures Shift([2, 2, 2, 0], Right) == [0, 0, 2, 4]
  {
    ShiftRight([2, 2, 2, 0]);
    assert Reverse([2, 2, 2, 0]) == [0, 2, 2, 2];
    TilesOfTwoTwoTwo();
    MergeThree(2);
    assert Reverse([4, 2]) == [2, 4];
    assert Zeros(2) == [0, 0];
  }

  /** The column `[2,2,2,0]` (top first) moved down gives `[0,0,4,2]`: the
      pair at the top merges, not the pair next to the bottom edge. */
  lemma DownExampleTriple()
    ensures Shift([2, 2, 2, 0], Down) == [0, 0, 4, 2]
  {
    TilesOfTwoTwoTwo();
    MergeThree(2);
    assert Zeros(2) == [0, 0];
  }

  /** The same column moved up gives `[4,2,0,0]`. */
  lemma UpExampleTriple()
    ensures Shift([2, 2, 2, 0], Up) == [4, 2, 0, 0]
  {
    TilesOfTwoTwoTwo();
    MergeThree(2);
    assert Zeros(2) == [0, 0];
  }

  // ---------------------------------------------------------------------------
  // The whole board

  /** After the move, line `i` of the board is line `i` shifted. */
  lemma MoveLine(b: Board, direction: Direction, i: nat)
    requires IsBoard(b) && i < Size
    ensures Line(Move(b, direction), direction, i) == Shift(Line(b, direction, i), direction)
  {
    var m := Move(b, direction);
    var shifted := Shift(Line(b, direction, i), direction);
    if direction == Up || direction == Down {
      assert forall r :: 0 <= r < Size ==> Column(m, i)[r] == shifted[r];
    } else {
      assert forall c :: 0 <= c < Size ==> m[i][c] == shifted[c];
    }
  }

  /** The move changes nothing exactly when it changes no line. */
  lemma MoveUnchanged(b: Board, direction: Direction)
    requires IsBoard(b)
    ensures Move(b, direction) == b <==>
              forall i :: 0 <= i < Size ==> Shift(Line(b, direction, i), direction) == Line(b, direction, i)
  {
    var m := Move(b, direction);
    forall i | 0 <= i < Size {
      MoveLine(b, direction, i);
    }
    if forall i :: 0 <= i < Size ==> Shift(Line(b, direction, i), direction) == Line(b, direction, i) {
      forall r | 0 <= r < Size ensures m[r] == b[r] {
        if direction == Up || direction == Down {
          forall c | 0 <= c < Size ensures m[r][c] == b[r][c] {
            assert Line(b, direction, c)[r] == b[r][c];
          }
        } else {
          assert Line(b, direction, r) == b[r];
        }
      }
    }
  }

  /** A move is a no-op exactly when every one of its lines is stuck. */
  lemma MoveNoOp(b: Board, direction: Direction)
    requires IsBoard(b)
    ensures Move(b, direction) == b <==> forall i :: 0 <= i < Size ==> Stuck(Line(b, direction, i), direction)
  {
    MoveUnchanged(b, direction);
    forall i | 0 <= i < Size {
      ShiftNoOp(Line(b, direction, i), direction);
    }
  }

  /** A move that changes the board leaves at least one empty cell, so the
      tile spawned after it always finds a place. */
  lemma MovedBoardHasEmptyCell(b: Board, direction: Direction)
    requires IsBoard(b)
    requires Move(b, direction) != b
    ensures exists r, c :: 0 <= r < Size && 0 <= c < Size && Move(b, direction)[r][c] == 0
  {
    MoveUnchanged(b, direction);
    var i :| 0 <= i < Size && Shift(Line(b, direction, i), direction) != Line(b, direction, i);
    var line := Line(b, direction, i);
    if forall k :: 0 <= k < |line| ==> Shift(line, direction)[k] != 0 {
      ShiftFull(line, direction);
    }
    var k :| 0 <= k < Size && Shift(line, direction)[k] == 0;
    MoveLine(b, direction, i);
    if direction == Up || direction == Down {
      assert Move(b, direction)[k][i] == 0;
    } else {
      assert Move(b, direction)[i][k] == 0;
    }
  }

  /** 1 for a tile, 0 for an empty cell. */
  function Occupied(v: int): nat
  {
    if v != 0 then 1 else 0
  }

  lemma Sum4(s: seq<int>)
    requires |s| == 4
    ensures Sum(s) == s[0] + s[1] + s[2] + s[3]
    ensures Count(s) == Occupied(s[0]) + Occupied(s[1]) + Occupied(s[2]) + Occupied(s[3])
  {
    assert s[1..][1..] == s[2..];
    assert s[2..][1..] == s[3..];
    assert s[3..][1..] == [];
    assert Sum(s[3..]) == s[3] && Count(s[3..]) == Occupied(s[3]);
    assert Sum(s[2..]) == s[2] + Sum(s[3..]);
    assert Count(s[2..]) == Occupied(s[2]) + Count(s[3..]);
    assert Sum(s[1..]) == s[1] + Sum(s[2..]);
    assert Count(s[1..]) == Occupied(s[1]) + Count(s[2..]);
  }

  lemma BoardSum4(b: Board)
    requires IsBoard(b)
    ensures BoardSum(b) == Sum(b[0]) + Sum(b[1]) + Sum(b[2]) + Sum(b[3])
    ensures TileCount(b) == Count(b[0]) + Count(b[1]) + Count(b[2]) + Count(b[3])
  {
    assert b[1..][1..] == b[2..];
    assert b[2..][1..] == b[3..];
    assert b[3..][1..] == [];
    assert BoardSum(b[3..]) == Sum(b[3]) && TileCount(b[3..]) == Count(b[3]);
    assert BoardSum(b[2..]) == Sum(b[2]) + BoardSum(b[3..]);
    assert TileCount(b[2..]) == Count(b[2]) + TileCount(b[3..]);
    assert BoardSum(b[1..]) == Sum(b[1]) + BoardSum(b[2..]);
    assert TileCount(b[1..]) == Count(b[1]) + TileCount(b[2..]);
  }

  /** The board total and tile count, summed line by line in the direction of
      a move. */
  lemma ByLines(b: Board, direction: Direction)
    requires IsBoard(b)
    ensures BoardSum(b) == Sum(Line(b, direction, 0)) + Sum(Line(b, direction, 1))
                           + Sum(Line(b, direction, 2)) + Sum(Line(b, direction, 3))
    ensures TileCount(b) == Count(Line(b, direction, 0)) + Count(Line(b, direction, 1))
                            + Count(Line(b, direction, 2)) + Count(Line(b, direction, 3))
  {
    BoardSum4(b);
    if direction == Up || direction == Down {
      SumByColumns(b);
      CountByColumns(b);
    }
  }

  lemma SumByColumns(b: Board)
    requires IsBoard(b)
    ensures Sum(b[0]) + Sum(b[1]) + Sum(b[2]) + Sum(b[3])
            == Sum(Column(b, 0)) + Sum(Column(b, 1)) + Sum(Column(b, 2)) + Sum(Column(b, 3))
  {
    Sum4(b[0]); Sum4(b[1]); Sum4(b[2]); Sum4(b[3]);
    Sum4(Column(b, 0)); Sum4(Column(b, 1)); Sum4(Column(b, 2)); Sum4(Column(b, 3));
  }

  lemma CountByColumns(b: Board)
    requires IsBoard(b)
    ensures Count(b[0]) + Count(b[1]) + Count(b[2]) + Count(b[3])
            == Count(Column(b, 0)) + Count(Column(b, 1)) + Count(Column(b, 2)) + Count(Column(b, 3))
  {
    Sum4(b[0]); Sum4(b[1]); Sum4(b[2]); Sum4(b[3]);
    Sum4(Column(b, 0)); Sum4(Column(b, 1)); Sum4(Column(b, 2)); Sum4(Column(b, 3));
  }

  /** Sliding and merging neither creates nor destroys value, and the number
      of tiles falls by exactly the number of merges. */
  lemma MoveConserves(b: Board, direction: Direction)
    requires IsBoard(b)
    ensures BoardSum(Move(b, direction)) == BoardSum(b)
    ensures TileCount(Move(b, direction)) + TotalMerges(b, direction) == TileCount(b)
  {
    var m := Move(b, direction);
    ByLines(b, direction);
    ByLines(m, direction);
    MoveLine(b, direction, 0); ShiftFacts(Line(b, direction, 0), direction);
    MoveLine(b, direction, 1); ShiftFacts(Line(b, direction, 1), direction);
    MoveLine(b, direction, 2); ShiftFacts(Line(b, direction, 2), direction);
    MoveLine(b, direction, 3); ShiftFacts(Line(b, direction, 3), direction);
  }

  /** A board of empty cells and tiles stays one. */
  lemma MoveKeepsCells(b: Board, direction: Direction)
    requires IsBoard(b) && AllCells(b)
    ensures AllCells(Move(b, direction))
  {
    var m := Move(b, direction);
    forall r, c | 0 <= r < Size && 0 <= c < Size ensures IsCell(m[r][c]) {
      var i, k := if direction == Up || direction == Down then c else r, if direction == Up || direction == Down then r else c;
      var line := Line(b, direction, i);
      assert forall j :: 0 <= j < Size ==> IsCell(line[j]);
      ShiftFacts(line, direction);
      MoveLine(b, direction, i);
      assert m[r][c] == Line(m, direction, i)[k];
    }
  }

  /** Right is handled through the mirror: moving right is moving the
      mirrored board left and mirroring back. */
  lemma MirrorSymmetry(b: Board)
    requires IsBoard(b)
    ensures Move(b, Right) == Mirror(Move(Mirror(b), Left))
  {
    var lhs := Move(b, Right);
    var rhs := Mirror(Move(Mirror(b), Left));
    forall r | 0 <= r < Size ensures lhs[r] == rhs[r] {
      MoveLine(b, Right, r);
      MoveLine(Mirror(b), Left, r);
      ShiftRightMirrorsLeft(b[r]);
    }
  }

  /** Turning the board over, moving up and turning back works on each
      column as reversing it, moving it up and reversing the result. */
  lemma FlippedUpColumn(b: Board, c: nat)
    requires IsBoard(b) && c < Size
    ensures Column(Flip(Move(Flip(b), Up)), c) == Reverse(Shift(Reverse(Column(b, c)), Up))
  {
    var f := Flip(b);
    assert Column(f, c) == Reverse(Column(b, c));
    MoveLine(f, Up, c);
    var m := Move(f, Up);
    assert Column(Flip(m), c) == Reverse(Column(m, c));
  }

  /** Down, in contrast, is not up seen upside down: a column holding
      2, 2, 2 from the top and an empty bottom cell ends as 4 over 2 when
      moved down, where turning the board over, moving up and turning back
      puts 2 over 4. With `FlippedUpColumn` and `MoveLine` this holds for
      every board with such a column. */
  lemma DownIsNotFlippedUp()
    ensures Reverse(Shift(Reverse([2, 2, 2, 0]), Up)) == [0, 0, 2, 4]
    ensures Shift([2, 2, 2, 0], Down) != Reverse(Shift(Reverse([2, 2, 2, 0]), Up))
  {
    DownExampleTriple();
    var up := Shift([0, 2, 2, 2], Up);
    assert up == [4, 2, 0, 0] by {
      TilesOfTwoTwoTwo();
      MergeThree(2);
      assert Zeros(2) == [0, 0];
    }
    assert Reverse([2, 2, 2, 0]) == [0, 2, 2, 2];
    assert Reverse(up) == [0, 0, 2, 4];
  }

  /** The board example: `2 2 . .` in the top row moved left becomes
      `4 . . .`, and the board counts as changed. */
  lemma LeftExample()
    ensures var b := [[2, 2, 0, 0], [0, 0, 0, 0], [0, 0, 0, 0], [0, 0, 0, 0]];
            IsBoard(b) && Move(b, Left)[0] == [4, 0, 0, 0] && Move(b, Left) != b
  {
    var b := [[2, 2, 0, 0], [0, 0, 0, 0], [0, 0, 0, 0], [0, 0, 0, 0]];
    assert NonZero([2, 2, 0, 0]) == [2, 2] by {
      assert [2, 2, 0, 0] == [2, 2] + Zeros(2);
      NonZeroConcat([2, 2], Zeros(2));
      NonZeroOfTiles([2, 2]);
      ZerosFacts(2);
    }
    assert Merge([2, 2]) == [4];
    assert Zeros(3) == [0, 0, 0];
    assert Move(b, Left)[0] == Shift(b[0], Left);
  }
}
