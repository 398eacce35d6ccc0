/** The tile-sequence reducer of the 2048 page: one row or column at a time
    (`moveRowOrColumn`, src/pages/app-home.ts:170-189), as functions on
    sequences, and the facts the board move relies on. */
module Lines {

  /** The four moves the page accepts. */
  datatype Direction = Up | Down | Left | Right

  /** Sum of the values of a line. */
  function Sum(s: seq<int>): int
  {
    if s == [] then 0 else s[0] + Sum(s[1..])
  }

  /** Number of tiles (non-zero cells) of a line. */
  function Count(s: seq<int>): nat
  {
    if s == [] then 0 else (if s[0] != 0 then 1 else 0) + Count(s[1..])
  }

  /** The line read back to front: the value `Array.prototype.reverse` leaves. */
  function Reverse(s: seq<int>): seq<int>
  {
    seq(|s|, k requires 0 <= k < |s| => s[|s| - 1 - k])
  }

  /** `n` empty cells: `Array(n).fill(0)`. */
  function Zeros(n: nat): seq<int>
  {
    seq(n, _ => 0)
  }

  /** The tiles of a line in their order, empty cells dropped
      (`filter(value => value !== 0)`). */
  function NonZero(s: seq<int>): (r: seq<int>)
    ensures |r| == Count(s) <= |s|
    ensures forall k :: 0 <= k < |r| ==> r[k] != 0
  {
    if s == [] then []
    else if s[0] == 0 then NonZero(s[1..])
    else [s[0]] + NonZero(s[1..])
  }

  /** The front-to-back merge pass over the tiles: an equal neighbouring pair
      becomes one tile of twice the value and the scan skips past both. */
  function Merge(d: seq<int>): (r: seq<int>)
    ensures |r| <= |d|
  {
    if |d| >= 2 && d[0] == d[1] then [d[0] * 2] + Merge(d[2..])
    else if d == [] then []
    else [d[0]] + Merge(d[1..])
  }

  /** How many pairs the merge pass combines. */
  function Merges(d: seq<int>): nat
  {
    if |d| >= 2 && d[0] == d[1] then 1 + Merges(d[2..])
    else if d == [] then 0
    else Merges(d[1..])
  }

  /** The line `moveRowOrColumn` returns: the merged tiles padded with zeros to
      the original length, zeros behind for up and left, in front for down
      and right, and the merged tiles reversed for right. */
  function Reduce(line: seq<int>, direction: Direction): (r: seq<int>)
    ensures |r| == |line|
  {
    var merged := Merge(NonZero(line));
    var zeros := Zeros(|line| - |merged|);
    if direction == Up || direction == Left then merged + zeros
    else if direction == Right then zeros + Reverse(merged)
    else zeros + merged
  }

  /** No tile stands behind an empty cell. */
  predicate PackedFront(s: seq<int>)
  {
    forall i, j :: 0 <= i < j < |s| && s[i] == 0 ==> s[j] == 0
  }

  /** No tile stands in front of an empty cell. */
  predicate PackedBack(s: seq<int>)
  {
    forall i, j :: 0 <= i < j < |s| && s[j] == 0 ==> s[i] == 0
  }

  /** No two neighbours are equal. */
  predicate NoEqualNeighbours(d: seq<int>)
  {
    forall k :: 0 <= k < |d| - 1 ==> d[k] != d[k + 1]
  }

  /** The values a tile may take: 2 and everything reached by doubling it. */
  predicate IsTileValue(v: int)
    decreases if v < 0 then 0 else v
  {
    v == 2 || (v > 2 && v % 2 == 0 && IsTileValue(v / 2))
  }

  /** An empty cell or a tile. */
  predicate IsCell(v: int)
  {
    v == 0 || IsTileValue(v)
  }

  // ---------------------------------------------------------------------------
  // Sequence facts

  lemma {:induction false} SumConcat(a: seq<int>, b: seq<int>)
    ensures Sum(a + b) == Sum(a) + Sum(b)
  {
    if a == [] {
      assert a + b == b;
    } else {
      assert (a + b)[1..] == a[1..] + b;
      SumConcat(a[1..], b);
    }
  }

  lemma {:induction false} CountConcat(a: seq<int>, b: seq<int>)
    ensures Count(a + b) == Count(a) + Count(b)
  {
    if a == [] {
      assert a + b == b;
    } else {
      assert (a + b)[1..] == a[1..] + b;
      CountConcat(a[1..], b);
    }
  }

  lemma {:induction false} NonZeroConcat(a: seq<int>, b: seq<int>)
    ensures NonZero(a + b) == NonZero(a) + NonZero(b)
  {
    if a == [] {
      assert a + b == b;
    } else {
      assert (a + b)[1..] == a[1..] + b;
      NonZeroConcat(a[1..], b);
    }
  }

  lemma {:induction false} ZerosFacts(n: nat)
    ensures Sum(Zeros(n)) == 0 && Count(Zeros(n)) == 0 && NonZero(Zeros(n)) == []
    ensures Reverse(Zeros(n)) == Zeros(n)
  {
    if n > 0 {
      assert Zeros(n)[1..] == Zeros(n - 1);
      ZerosFacts(n - 1);
    }
  }

  /** A line without empty cells is its own list of tiles. */
  lemma {:induction false} NonZeroOfTiles(s: seq<int>)
    requires forall k :: 0 <= k < |s| ==> s[k] != 0
    ensures NonZero(s) == s
  {
    if s != [] {
      NonZeroOfTiles(s[1..]);
    }
  }

  /** Conversely, a line with as many tiles as cells has no empty cell. */
  lemma {:induction false} FullLine(s: seq<int>)
    requires Count(s) == |s|
    ensures forall k :: 0 <= k < |s| ==> s[k] != 0
  {
    if s != [] {
      assert Count(s[1..]) <= |s[1..]| by { assert |NonZero(s[1..])| == Count(s[1..]); }
      FullLine(s[1..]);
      assert forall k :: 1 <= k < |s| ==> s[k] == s[1..][k - 1];
    }
  }

  lemma ReverseConcat(a: seq<int>, b: seq<int>)
    ensures Reverse(a + b) == Reverse(b) + Reverse(a)
  {
    assert |Reverse(a + b)| == |Reverse(b) + Reverse(a)|;
  }

  lemma ReverseReverse(s: seq<int>)
    ensures Reverse(Reverse(s)) == s
  {
  }

  lemma {:induction false} ReverseCounts(s: seq<int>)
    ensures Sum(Reverse(s)) == Sum(s)
    ensures NonZero(Reverse(s)) == Reverse(NonZero(s))
  {
    if s != [] {
      assert s == [s[0]] + s[1..];
      ReverseConcat([s[0]], s[1..]);
      assert Reverse([s[0]]) == [s[0]];
      ReverseCounts(s[1..]);
      SumConcat(Reverse(s[1..]), [s[0]]);
      NonZeroConcat(Reverse(s[1..]), [s[0]]);
      if s[0] != 0 {
        ReverseConcat([s[0]], NonZero(s[1..]));
      }
    }
  }

  // ---------------------------------------------------------------------------
  // The merge pass

  /** Each merge turns two tiles into one. */
  lemma {:induction false} MergeLength(d: seq<int>)
    ensures |Merge(d)| + Merges(d) == |d|
  {
    if |d| >= 2 && d[0] == d[1] {
      MergeLength(d[2..]);
    } else if d != [] {
      MergeLength(d[1..]);
    }
  }

  /** The merge pass keeps the total. */
  lemma {:induction false} MergeSum(d: seq<int>)
    ensures Sum(Merge(d)) == Sum(d)
  {
    if |d| >= 2 && d[0] == d[1] {
      MergeSum(d[2..]);
      assert d[1..][1..] == d[2..];
      assert Sum(d) == d[0] + d[1] + Sum(d[2..]);
      assert Merge(d) == [d[0] * 2] + Merge(d[2..]);
      assert Sum(Merge(d)) == d[0] * 2 + Sum(Merge(d[2..]));
    } else if d != [] {
      MergeSum(d[1..]);
      assert Merge(d) == [d[0]] + Merge(d[1..]);
      assert Sum(Merge(d)) == d[0] + Sum(Merge(d[1..]));
    }
  }

  /** Merging tiles gives tiles. */
  lemma {:induction false} MergeNonZero(d: seq<int>)
    requires forall k :: 0 <= k < |d| ==> d[k] != 0
    ensures forall k :: 0 <= k < |Merge(d)| ==> Merge(d)[k] != 0
  {
    if |d| >= 2 && d[0] == d[1] {
      var tail := d[2..];
      assert forall k :: 0 <= k < |tail| ==> tail[k] != 0 by {
        assert forall k :: 0 <= k < |tail| ==> tail[k] == d[k + 2];
      }
      MergeNonZero(tail);
      assert Merge(d) == [d[0] * 2] + Merge(tail);
    } else if d != [] {
      var tail := d[1..];
      assert forall k :: 0 <= k < |tail| ==> tail[k] != 0 by {
        assert forall k :: 0 <= k < |tail| ==> tail[k] == d[k + 1];
      }
      MergeNonZero(tail);
      assert Merge(d) == [d[0]] + Merge(tail);
    }
  }

  /** Doubling a tile value gives a tile value, so merging tile values gives
      tile values. */
  lemma {:induction false} MergeTileValues(d: seq<int>)
    requires forall k :: 0 <= k < |d| ==> IsTileValue(d[k])
    ensures forall k :: 0 <= k < |Merge(d)| ==> IsTileValue(Merge(d)[k])
  {
    if |d| >= 2 && d[0] == d[1] {
      var tail := d[2..];
      assert forall k :: 0 <= k < |tail| ==> IsTileValue(tail[k]) by {
        assert forall k :: 0 <= k < |tail| ==> tail[k] == d[k + 2];
      }
      MergeTileValues(tail);
      assert IsTileValue(d[0] * 2) by {
        assert IsTileValue(d[0]);
        assert d[0] >= 2;
      }
      assert Merge(d) == [d[0] * 2] + Merge(tail);
    } else if d != [] {
      var tail := d[1..];
      assert forall k :: 0 <= k < |tail| ==> IsTileValue(tail[k]) by {
        assert forall k :: 0 <= k < |tail| ==> tail[k] == d[k + 1];
      }
      MergeTileValues(tail);
      assert Merge(d) == [d[0]] + Merge(tail);
    }
  }

  /** The merge pass leaves a list of tiles alone exactly when no two
      neighbours are equal, which is also exactly when it merges nothing. */
  lemma MergeIdentity(d: seq<int>)
    ensures Merge(d) == d <==> NoEqualNeighbours(d)
    ensures Merges(d) == 0 <==> NoEqualNeighbours(d)
  {
    MergeLength(d);
    MergeNone(d);
  }

  lemma {:induction false} MergeNone(d: seq<int>)
    ensures Merges(d) == 0 <==> NoEqualNeighbours(d)
  {
    if |d| >= 2 && d[0] == d[1] {
      assert !NoEqualNeighbours(d);
    } else if d != [] {
      MergeNone(d[1..]);
      assert NoEqualNeighbours(d) <==> NoEqualNeighbours(d[1..]) by {
        assert forall k :: 0 <= k < |d[1..]| ==> d[1..][k] == d[k + 1];
      }
    }
  }

  // No cascade: four equal tiles give two merged tiles, a freshly merged tile
  // does not merge again with an equal tile beside it, and of three equal
  // tiles only the first two merge.

  lemma FourEqualTiles(v: int)
    requires v != 0
    ensures Reduce([v, v, v, v], Left) == [2 * v, 2 * v, 0, 0]
  {
    assert NonZero([v, v, v, v]) == [v, v, v, v] by { NonZeroOfTiles([v, v, v, v]); }
    assert Merge([v, v, v, v]) == [2 * v, 2 * v] by {
      assert [v, v, v, v][2..] == [v, v];
      assert [v, v][2..] == [];
    }
    assert Zeros(2) == [0, 0];
  }

  lemma MergedTileStays(v: int)
    requires v != 0
    ensures Reduce([v, v, 2 * v, 0], Left) == [2 * v, 2 * v, 0, 0]
  {
    assert NonZero([v, v, 2 * v, 0]) == [v, v, 2 * v] by {
      assert [v, v, 2 * v, 0] == [v, v, 2 * v] + [0];
      NonZeroConcat([v, v, 2 * v], [0]);
      NonZeroOfTiles([v, v, 2 * v]);
    }
    assert Merge([v, v, 2 * v]) == [2 * v, 2 * v] by {
      assert [v, v, 2 * v][2..] == [2 * v];
      assert [2 * v][1..] == [];
    }
    assert Zeros(2) == [0, 0];
  }

  lemma ThreeEqualTiles(v: int)
    requires v != 0
    ensures Reduce([v, v, v, 0], Left) == [2 * v, v, 0, 0]
  {
    assert NonZero([v, v, v, 0]) == [v, v, v] by {
      assert [v, v, v, 0] == [v, v, v] + [0];
      NonZeroConcat([v, v, v], [0]);
      NonZeroOfTiles([v, v, v]);
    }
    MergeThree(v);
    assert Zeros(2) == [0, 0];
  }

  /** The merge pass over three equal tiles merges the first two. */
  lemma MergeThree(v: int)
    ensures Merge([v, v, v]) == [2 * v, v]
  {
    assert [v, v, v][2..] == [v];
    assert [v][1..] == [];
  }

  /** The tiles of the line `[2,2,2,0]` and of its reverse. */
  lemma TilesOfTwoTwoTwo()
    ensures NonZero([2, 2, 2, 0]) == [2, 2, 2]
    ensures NonZero([0, 2, 2, 2]) == [2, 2, 2]
  {
    NonZeroOfTiles([2, 2, 2]);
    assert [2, 2, 2, 0] == [2, 2, 2] + [0];
    NonZeroConcat([2, 2, 2], [0]);
    assert [0, 2, 2, 2] == [0] + [2, 2, 2];
    NonZeroConcat([0], [2, 2, 2]);
  }

  // ---------------------------------------------------------------------------
  // The reducer

  /** `moveRowOrColumn` keeps the length and the total of its line, and the
      number of tiles drops by the number of merges; its tiles are the merged
      tiles, packed behind for up and left, packed in front for down, and
      packed in front and reversed for right. */
  lemma ReduceShape(line: seq<int>, direction: Direction)
    ensures |Reduce(line, direction)| == |line|
    ensures Sum(Reduce(line, direction)) == Sum(line)
    ensures Count(Reduce(line, direction)) + Merges(NonZero(line)) == Count(line)
    ensures direction in {Up, Left} ==> PackedFront(Reduce(line, direction))
    ensures direction in {Down, Right} ==> PackedBack(Reduce(line, direction))
    ensures direction != Right ==> NonZero(Reduce(line, direction)) == Merge(NonZero(line))
    ensures direction == Right ==> NonZero(Reduce(line, direction)) == Reverse(Merge(NonZero(line)))
  {
    var d := NonZero(line);
    var merged := Merge(d);
    var zeros := Zeros(|line| - |merged|);
    MergeLength(d);
    MergeSum(d);
    MergeNonZero(d);
    ZerosFacts(|line| - |merged|);
    NonZeroSum(line);
    if direction == Up || direction == Left {
      PiecesFacts(merged, zeros, merged + zeros);
      TilesThenZerosPackedFront(merged, |zeros|);
    } else if direction == Right {
      var back := Reverse(merged);
      ReverseCounts(merged);
      PiecesFacts(back, zeros, zeros + back);
      ZerosThenTilesPackedBack(back, |zeros|);
    } else {
      PiecesFacts(merged, zeros, zeros + merged);
      ZerosThenTilesPackedBack(merged, |zeros|);
    }
  }

  /** Sum, tile count and tiles of a line made of a list of tiles and a run of
      zeros, in either order. */
  lemma PiecesFacts(t: seq<int>, zeros: seq<int>, whole: seq<int>)
    requires forall k :: 0 <= k < |t| ==> t[k] != 0
    requires zeros == Zeros(|zeros|)
    requires whole == t + zeros || whole == zeros + t
    ensures Sum(whole) == Sum(t) && Count(whole) == |t| && NonZero(whole) == t
  {
    ZerosFacts(|zeros|);
    NonZeroOfTiles(t);
    if whole == t + zeros {
      SumConcat(t, zeros);
      CountConcat(t, zeros);
      NonZeroConcat(t, zeros);
    } else {
      SumConcat(zeros, t);
      CountConcat(zeros, t);
      NonZeroConcat(zeros, t);
    }
  }

  /** Reducing a line of cells (empty or tile values) gives a line of cells. */
  lemma ReduceKeepsCells(line: seq<int>, direction: Direction)
    requires forall k :: 0 <= k < |line| ==> IsCell(line[k])
    ensures forall k :: 0 <= k < |Reduce(line, direction)| ==> IsCell(Reduce(line, direction)[k])
  {
    var d := NonZero(line);
    NonZeroTiles(line);
    MergeTileValues(d);
  }

  /** Dropping empty cells keeps the total. */
  lemma {:induction false} NonZeroSum(s: seq<int>)
    ensures Sum(NonZero(s)) == Sum(s)
  {
    if s != [] {
      NonZeroSum(s[1..]);
    }
  }

  /** Dropping empty cells from a line of cells leaves tile values only. */
  lemma {:induction false} NonZeroTiles(s: seq<int>)
    requires forall k :: 0 <= k < |s| ==> IsCell(s[k])
    ensures forall k :: 0 <= k < |NonZero(s)| ==> IsTileValue(NonZero(s)[k])
  {
    if s != [] {
      NonZeroTiles(s[1..]);
    }
  }

  /** A line packed behind is its tiles followed by zeros. */
  lemma {:induction false} PackedFrontSplit(s: seq<int>)
    requires PackedFront(s)
    ensures s == NonZero(s) + Zeros(|s| - |NonZero(s)|)
  {
    if s != [] {
      if s[0] == 0 {
        assert s == Zeros(|s|);
        ZerosFacts(|s|);
      } else {
        PackedFrontSplit(s[1..]);
      }
    }
  }

  /** A line packed in front is zeros followed by its tiles. */
  lemma {:induction false} PackedBackSplit(s: seq<int>)
    requires PackedBack(s)
    ensures s == Zeros(|s| - |NonZero(s)|) + NonZero(s)
  {
    if s != [] {
      if s[0] == 0 {
        PackedBackSplit(s[1..]);
      } else {
        NonZeroOfTiles(s);
        assert |s| - |NonZero(s)| == 0;
      }
    }
  }

  lemma TilesThenZerosPackedFront(t: seq<int>, n: nat)
    requires forall k :: 0 <= k < |t| ==> t[k] != 0
    ensures PackedFront(t + Zeros(n))
  {
  }

  lemma ZerosThenTilesPackedBack(t: seq<int>, n: nat)
    requires forall k :: 0 <= k < |t| ==> t[k] != 0
    ensures PackedBack(Zeros(n) + t)
  {
  }

  /** A move toward the front leaves a line as it is exactly when its tiles
      are already packed behind... */
  lemma ReduceLeftNoOp(line: seq<int>)
    ensures Reduce(line, Left) == line <==> PackedFront(line) && NoEqualNeighbours(NonZero(line))
  {
    if Reduce(line, Left) == line {
      ReduceLeftUnchanged(line);
    }
    if PackedFront(line) && NoEqualNeighbours(NonZero(line)) {
      ReduceLeftPacked(line);
    }
  }

  lemma ReduceLeftUnchanged(line: seq<int>)
    requires Reduce(line, Left) == line
    ensures PackedFront(line) && NoEqualNeighbours(NonZero(line))
  {
    var d := NonZero(line);
    var m := Merge(d);
    var z := Zeros(|line| - |m|);
    assert m + z == line;
    MergeNonZero(d);
    assert PackedFront(line) by {
      TilesThenZerosPackedFront(m, |z|);
    }
    assert m == d by {
      NonZeroConcat(m, z);
      ZerosFacts(|z|);
      NonZeroOfTiles(m);
    }
    MergeIdentity(d);
  }

  lemma ReduceLeftPacked(line: seq<int>)
    requires PackedFront(line) && NoEqualNeighbours(NonZero(line))
    ensures Reduce(line, Left) == line
  {
    var d := NonZero(line);
    assert Merge(d) == d by {
      MergeIdentity(d);
    }
    PackedFrontSplit(line);
  }

  /** ...and a move of the code's down kind (tiles merged front first and
      packed in front) leaves a line as it is exactly when its tiles are
      already packed in front with no equal neighbours. */
  lemma ReduceDownNoOp(line: seq<int>)
    ensures Reduce(line, Down) == line <==> PackedBack(line) && NoEqualNeighbours(NonZero(line))
  {
    if Reduce(line, Down) == line {
      ReduceDownUnchanged(line);
    }
    if PackedBack(line) && NoEqualNeighbours(NonZero(line)) {
      ReduceDownPacked(line);
    }
  }

  lemma ReduceDownUnchanged(line: seq<int>)
    requires Reduce(line, Down) == line
    ensures PackedBack(line) && NoEqualNeighbours(NonZero(line))
  {
    var d := NonZero(line);
    var m := Merge(d);
    var z := Zeros(|line| - |m|);
    assert z + m == line;
    MergeNonZero(d);
    assert PackedBack(line) by {
      ZerosThenTilesPackedBack(m, |z|);
    }
    assert m == d by {
      NonZeroConcat(z, m);
      ZerosFacts(|z|);
      NonZeroOfTiles(m);
    }
    MergeIdentity(d);
  }

  lemma ReduceDownPacked(line: seq<int>)
    requires PackedBack(line) && NoEqualNeighbours(NonZero(line))
    ensures Reduce(line, Down) == line
  {
    var d := NonZero(line);
    assert Merge(d) == d by {
      MergeIdentity(d);
    }
    PackedBackSplit(line);
  }
}
