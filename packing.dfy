/** The polyomino packing solver (src/index.ts): pieces and their quarter turns, a board whose
    cells are written in place, the row-major search for the next placement, the store of
    solutions deduplicated up to a half turn, and the backtracking search that restores the
    board after every branch. */
module Packing {
  import opened Wrappers

  /** A rectangle of cells, row by row. */
  type Grid = seq<seq<int>>

  /** Every row of `g` has `w` cells. */
  predicate Rectangular(g: Grid, w: nat)
  {
    forall i :: 0 <= i < |g| ==> |g[i]| == w
  }

  /** Two rectangles of the same shape that agree cell by cell are equal. */
  lemma GridExt(g: Grid, h: Grid, w: nat)
    requires |g| == |h| && Rectangular(g, w) && Rectangular(h, w)
    requires forall i, j :: 0 <= i < |g| && 0 <= j < w ==> g[i][j] == h[i][j]
    ensures g == h
  {
    forall i | 0 <= i < |g|
      ensures g[i] == h[i]
    {
    }
  }

  /** A piece: its bounding box, its cells (0 for empty) and the id it writes on the board. */
  datatype Piece = Piece(width: nat, height: nat, data: Grid, id: int)

  predicate WellShaped(p: Piece)
  {
    |p.data| == p.height && Rectangular(p.data, p.width)
  }

  datatype Position = Position(x: nat, y: nat)

  /** `makeRectangleData` in the packer: a fresh `height` by `width` rectangle of zeros. */
  method MakeRectangleData(width: nat, height: nat) returns (r: array2<int>)
    ensures fresh(r) && r.Length0 == height && r.Length1 == width
    ensures forall i, j :: 0 <= i < height && 0 <= j < width ==> r[i, j] == 0
  {
    r := new int[height, width];
    for i := 0 to height
      invariant forall a, b :: 0 <= a < i && 0 <= b < width ==> r[a, b] == 0
    {
      for j := 0 to width
        invariant forall a, b :: 0 <= a < i && 0 <= b < width ==> r[a, b] == 0
        invariant forall b :: 0 <= b < j ==> r[i, b] == 0
      {
        r[i, j] := 0;
      }
    }
  }

  /** The cells of a two-dimensional array, as a value. */
  ghost function Cells(a: array2<int>): (g: Grid)
    reads a
    ensures |g| == a.Length0 && Rectangular(g, a.Length1)
    ensures forall i, j :: 0 <= i < a.Length0 && 0 <= j < a.Length1 ==> g[i][j] == a[i, j]
  {
    seq(a.Length0, i requires 0 <= i < a.Length0 reads a =>
      seq(a.Length1, j requires 0 <= j < a.Length1 reads a => a[i, j]))
  }

  /** Reads a filled array back as a grid, row by row. The packer has no such step: its pieces
      and stored solutions are the arrays themselves, while here a piece's cells and a stored
      solution are grid values, so a freshly filled array is read back into one. */
  method Snapshot(a: array2<int>) returns (g: Grid)
    ensures g == Cells(a)
  {
    g := [];
    for i := 0 to a.Length0
      invariant |g| == i && Rectangular(g, a.Length1)
      invariant forall r, c :: 0 <= r < i && 0 <= c < a.Length1 ==> g[r][c] == a[r, c]
    {
      var row: seq<int> := [];
      for j := 0 to a.Length1
        invariant |row| == j && forall c :: 0 <= c < j ==> row[c] == a[i, c]
      {
        row := row + [a[i, j]];
      }
      g := g + [row];
    }
    GridExt(g, Cells(a), a.Length1);
  }

  // ---------------------------------------------------------------------------------------
  // Rotation.

  /** A quarter turn: the width and the height swap, and cell (i, j) of the turned piece is
      cell (j, width - i - 1) of the original. */
  function Rotated(p: Piece): (q: Piece)
    requires WellShaped(p)
    ensures WellShaped(q) && q.width == p.height && q.height == p.width && q.id == p.id
    ensures forall i, j :: 0 <= i < q.height && 0 <= j < q.width ==> q.data[i][j] == p.data[j][p.width - i - 1]
  {
    Piece(p.height, p.width,
      seq(p.width, i requires 0 <= i < p.width =>
        seq(p.height, j requires 0 <= j < p.height => p.data[j][p.width - i - 1])),
      p.id)
  }

  /** A half turn of a rectangle of width `w`: cell (y, x) comes from the opposite corner. */
  function Rot180(g: Grid, w: nat): (r: Grid)
    requires Rectangular(g, w)
    ensures |r| == |g| && Rectangular(r, w)
    ensures forall y, x :: 0 <= y < |g| && 0 <= x < w ==> r[y][x] == g[|g| - y - 1][w - x - 1]
  {
    seq(|g|, y requires 0 <= y < |g| =>
      seq(w, x requires 0 <= x < w => g[|g| - y - 1][w - x - 1]))
  }

  /** Two half turns give back the original rectangle. */
  lemma Rot180Involutive(g: Grid, w: nat)
    requires Rectangular(g, w)
    ensures Rot180(Rot180(g, w), w) == g
  {
    GridExt(Rot180(Rot180(g, w), w), g, w);
  }

  /** Two quarter turns of a piece are its half turn. */
  lemma RotatedTwice(p: Piece)
    requires WellShaped(p)
    ensures Rotated(Rotated(p)) == Piece(p.width, p.height, Rot180(p.data, p.width), p.id)
  {
    var q := Rotated(Rotated(p));
    forall i, j | 0 <= i < p.height && 0 <= j < p.width
      ensures q.data[i][j] == Rot180(p.data, p.width)[i][j]
    {
      assert q.data[i][j] == Rotated(p).data[j][p.height - i - 1];
    }
    GridExt(q.data, Rot180(p.data, p.width), p.width);
  }

  /** Four quarter turns give back the original piece, so the four rotations the solver
      tries are all the orientations of the piece. */
  lemma RotatedFourTimes(p: Piece)
    requires WellShaped(p)
    ensures Rotated(Rotated(Rotated(Rotated(p)))) == p
  {
    RotatedTwice(p);
    var half := Rotated(Rotated(p));
    RotatedTwice(half);
    Rot180Involutive(p.data, p.width);
  }

  /** `Piece.rotate` in the packer: the turned cells are written into a fresh rectangle. */
  method Rotate(p: Piece) returns (q: Piece)
    requires WellShaped(p)
    ensures q == Rotated(p)
  {
    var newWidth := p.height;
    var newHeight := p.width;
    var r := MakeRectangleData(newWidth, newHeight);
    for i := 0 to newHeight
      invariant forall a, b :: 0 <= a < i && 0 <= b < newWidth ==> r[a, b] == p.data[b][p.width - a - 1]
    {
      for j := 0 to newWidth
        invariant forall a, b :: 0 <= a < i && 0 <= b < newWidth ==> r[a, b] == p.data[b][p.width - a - 1]
        invariant forall b :: 0 <= b < j ==> r[i, b] == p.data[b][p.width - i - 1]
      {
        r[i, j] := p.data[j][p.width - i - 1];
      }
    }
    var cells := Snapshot(r);
    GridExt(cells, Rotated(p).data, newWidth);
    q := Piece(p.height, p.width, cells, p.id);
  }

  /** The orientations the solver tries for a piece: itself and three successive quarter
      turns. */
  function Orientations(p: Piece): seq<Piece>
    requires WellShaped(p)
  {
    [p, Rotated(p), Rotated(Rotated(p)), Rotated(Rotated(Rotated(p)))]
  }

  /** Builds the orientations of a piece the way the solver's set-up does; a further quarter
      turn of the last one is the piece again, so these are all of its orientations. */
  method MakeRotations(p: Piece) returns (rs: seq<Piece>)
    requires WellShaped(p)
    ensures rs == Orientations(p)
    ensures forall k :: 0 <= k < 4 ==> WellShaped(rs[k]) && rs[k].id == p.id
    ensures Rotated(rs[3]) == rs[0]
  {
    var p1 := Rotate(p);
    var p2 := Rotate(p1);
    var p3 := Rotate(p2);
    rs := [p, p1, p2, p3];
    RotatedFourTimes(p);
  }

  // ---------------------------------------------------------------------------------------
  // Placing pieces on a grid, as values.

  /** Board cell (a, b) lies under a non-empty cell of piece `p` put at `pos`. */
  predicate Covers(p: Piece, pos: Position, a: int, b: int)
    requires WellShaped(p)
  {
    pos.y <= a < pos.y + p.height && pos.x <= b < pos.x + p.width && p.data[a - pos.y][b - pos.x] != 0
  }

  /** The placement test: the piece's box lies inside the board, and every non-empty cell of
      the piece lands on an empty board cell. */
  predicate Fits(g: Grid, w: nat, p: Piece, pos: Position)
    requires WellShaped(p) && Rectangular(g, w)
  {
    && pos.x + p.width <= w
    && pos.y + p.height <= |g|
    && forall i, j :: 0 <= i < p.height && 0 <= j < p.width && p.data[i][j] != 0 ==> g[pos.y + i][pos.x + j] == 0
  }

  /** What `place` needs in order not to throw: every non-empty cell of the piece lands on an
      empty cell of the board (the box itself may overhang where the piece is empty). */
  predicate CanWrite(g: Grid, w: nat, p: Piece, pos: Position, expected: int)
    requires WellShaped(p) && Rectangular(g, w)
  {
    forall i, j :: 0 <= i < p.height && 0 <= j < p.width && p.data[i][j] != 0 ==>
      pos.y + i < |g| && pos.x + j < w && g[pos.y + i][pos.x + j] == expected
  }

  /** The board with every cell under the piece set to `value`. */
  function Written(g: Grid, w: nat, p: Piece, pos: Position, value: int): (r: Grid)
    requires WellShaped(p) && Rectangular(g, w)
    ensures |r| == |g| && Rectangular(r, w)
    ensures forall a, b :: 0 <= a < |g| && 0 <= b < w ==> r[a][b] == if Covers(p, pos, a, b) then value else g[a][b]
  {
    seq(|g|, a requires 0 <= a < |g| =>
      seq(w, b requires 0 <= b < w => if Covers(p, pos, a, b) then value else g[a][b]))
  }

  /** A placement test that succeeds means `place` will not throw. */
  lemma FitsCanWrite(g: Grid, w: nat, p: Piece, pos: Position)
    requires WellShaped(p) && Rectangular(g, w) && Fits(g, w, p, pos)
    ensures CanWrite(g, w, p, pos, 0)
  {
  }

  /** `remove` after a successful `place` of the same piece at the same position does not
      throw and gives back the board exactly. */
  lemma RemoveUndoesPlace(g: Grid, w: nat, p: Piece, pos: Position)
    requires WellShaped(p) && Rectangular(g, w) && CanWrite(g, w, p, pos, 0)
    ensures CanWrite(Written(g, w, p, pos, p.id), w, p, pos, p.id)
    ensures Written(Written(g, w, p, pos, p.id), w, p, pos, 0) == g
  {
    PlacedCellsHoldId(g, w, p, pos);
    ClearingRestores(g, w, p, pos);
  }

  lemma PlacedCellsHoldId(g: Grid, w: nat, p: Piece, pos: Position)
    requires WellShaped(p) && Rectangular(g, w) && CanWrite(g, w, p, pos, 0)
    ensures CanWrite(Written(g, w, p, pos, p.id), w, p, pos, p.id)
  {
    var placed := Written(g, w, p, pos, p.id);
    forall i, j | 0 <= i < p.height && 0 <= j < p.width && p.data[i][j] != 0
      ensures pos.y + i < |placed| && pos.x + j < w && placed[pos.y + i][pos.x + j] == p.id
    {
      assert Covers(p, pos, pos.y + i, pos.x + j);
    }
  }

  lemma ClearingRestores(g: Grid, w: nat, p: Piece, pos: Position)
    requires WellShaped(p) && Rectangular(g, w) && CanWrite(g, w, p, pos, 0)
    ensures Written(Written(g, w, p, pos, p.id), w, p, pos, 0) == g
  {
    var placed := Written(g, w, p, pos, p.id);
    var removed := Written(placed, w, p, pos, 0);
    forall a, b | 0 <= a < |g| && 0 <= b < w
      ensures removed[a][b] == g[a][b]
    {
      if Covers(p, pos, a, b) {
        var ci, cj := a - pos.y, b - pos.x;
        assert p.data[ci][cj] != 0;
        assert g[pos.y + ci][pos.x + cj] == 0;
      } else {
        assert removed[a][b] == placed[a][b];
      }
    }
    GridExt(removed, g, w);
  }

  /** Piece cell (ci, cj) comes before piece cell (i, j) in row-major order. */
  predicate Before(ci: int, cj: int, i: int, j: int)
  {
    ci < i || (ci == i && cj < j)
  }

  /** The board once the cells under the piece's non-empty cells before piece cell (i, j) are
      set to `value`: what `place` or `remove` has done when it reaches (i, j). */
  function PartlyWritten(g: Grid, w: nat, p: Piece, pos: Position, i: nat, j: nat, value: int): (r: Grid)
    requires WellShaped(p) && Rectangular(g, w)
    ensures |r| == |g| && Rectangular(r, w)
    ensures forall a, b :: 0 <= a < |g| && 0 <= b < w ==>
      r[a][b] == if Covers(p, pos, a, b) && Before(a - pos.y, b - pos.x, i, j) then value else g[a][b]
  {
    seq(|g|, a requires 0 <= a < |g| =>
      seq(w, b requires 0 <= b < w =>
        if Covers(p, pos, a, b) && Before(a - pos.y, b - pos.x, i, j) then value else g[a][b]))
  }

  /** The board cells under the piece's non-empty cells before piece cell (i, j) are on the
      board and held `expected`. */
  predicate PartlyWritable(g: Grid, w: nat, p: Piece, pos: Position, i: nat, j: nat, expected: int)
    requires WellShaped(p) && Rectangular(g, w)
  {
    forall ci, cj :: 0 <= ci < p.height && 0 <= cj < p.width && p.data[ci][cj] != 0 && Before(ci, cj, i, j) ==>
      pos.y + ci < |g| && pos.x + cj < w && g[pos.y + ci][pos.x + cj] == expected
  }

  lemma NothingWritten(g: Grid, w: nat, p: Piece, pos: Position, value: int)
    requires WellShaped(p) && Rectangular(g, w)
    ensures PartlyWritten(g, w, p, pos, 0, 0, value) == g
  {
    GridExt(PartlyWritten(g, w, p, pos, 0, 0, value), g, w);
  }

  /** Passing an empty piece cell checks and sets nothing. */
  lemma SkipEmpty(g: Grid, w: nat, p: Piece, pos: Position, i: nat, j: nat, expected: int, value: int)
    requires WellShaped(p) && Rectangular(g, w) && i < p.height && j < p.width && p.data[i][j] == 0
    requires PartlyWritable(g, w, p, pos, i, j, expected)
    ensures PartlyWritable(g, w, p, pos, i, j + 1, expected)
    ensures PartlyWritten(g, w, p, pos, i, j + 1, value) == PartlyWritten(g, w, p, pos, i, j, value)
  {
    WritableSkip(g, w, p, pos, i, j, expected);
    SkipEmptyWritten(g, w, p, pos, i, j, value);
  }

  lemma WritableSkip(g: Grid, w: nat, p: Piece, pos: Position, i: nat, j: nat, expected: int)
    requires WellShaped(p) && Rectangular(g, w) && i < p.height && j < p.width && p.data[i][j] == 0
    requires PartlyWritable(g, w, p, pos, i, j, expected)
    ensures PartlyWritable(g, w, p, pos, i, j + 1, expected)
  {
    forall ci, cj | 0 <= ci < p.height && 0 <= cj < p.width && p.data[ci][cj] != 0 && Before(ci, cj, i, j + 1)
      ensures pos.y + ci < |g| && pos.x + cj < w && g[pos.y + ci][pos.x + cj] == expected
    {
      assert Before(ci, cj, i, j);
    }
  }

  lemma SkipEmptyWritten(g: Grid, w: nat, p: Piece, pos: Position, i: nat, j: nat, value: int)
    requires WellShaped(p) && Rectangular(g, w) && i < p.height && j < p.width && p.data[i][j] == 0
    ensures PartlyWritten(g, w, p, pos, i, j + 1, value) == PartlyWritten(g, w, p, pos, i, j, value)
  {
    var next := PartlyWritten(g, w, p, pos, i, j + 1, value);
    var now := PartlyWritten(g, w, p, pos, i, j, value);
    forall a, b | 0 <= a < |g| && 0 <= b < w
      ensures next[a][b] == now[a][b]
    {
      if Covers(p, pos, a, b) {
        assert Before(a - pos.y, b - pos.x, i, j + 1) == Before(a - pos.y, b - pos.x, i, j);
      }
    }
    GridExt(next, now, w);
  }

  /** Checking and setting a non-empty piece cell whose board cell holds `expected`. */
  lemma WriteStep(g: Grid, w: nat, p: Piece, pos: Position, i: nat, j: nat, expected: int, value: int)
    requires WellShaped(p) && Rectangular(g, w) && i < p.height && j < p.width && p.data[i][j] != 0
    requires pos.y + i < |g| && pos.x + j < w
    requires PartlyWritable(g, w, p, pos, i, j, expected)
    requires PartlyWritten(g, w, p, pos, i, j, value)[pos.y + i][pos.x + j] == expected
    ensures PartlyWritable(g, w, p, pos, i, j + 1, expected)
    ensures var h := PartlyWritten(g, w, p, pos, i, j, value);
      h[pos.y + i := h[pos.y + i][pos.x + j := value]] == PartlyWritten(g, w, p, pos, i, j + 1, value)
  {
    WrittenCellUntouched(g, w, p, pos, i, j, value);
    WritableStep(g, w, p, pos, i, j, expected);
    WriteStepWritten(g, w, p, pos, i, j, value);
  }

  lemma WrittenCellUntouched(g: Grid, w: nat, p: Piece, pos: Position, i: nat, j: nat, value: int)
    requires WellShaped(p) && Rectangular(g, w) && pos.y + i < |g| && pos.x + j < w
    ensures PartlyWritten(g, w, p, pos, i, j, value)[pos.y + i][pos.x + j] == g[pos.y + i][pos.x + j]
  {
    assert !Before(i, j, i, j);
  }

  lemma WritableStep(g: Grid, w: nat, p: Piece, pos: Position, i: nat, j: nat, expected: int)
    requires WellShaped(p) && Rectangular(g, w) && i < p.height && j < p.width
    requires pos.y + i < |g| && pos.x + j < w && g[pos.y + i][pos.x + j] == expected
    requires PartlyWritable(g, w, p, pos, i, j, expected)
    ensures PartlyWritable(g, w, p, pos, i, j + 1, expected)
  {
    forall ci, cj | 0 <= ci < p.height && 0 <= cj < p.width && p.data[ci][cj] != 0 && Before(ci, cj, i, j + 1)
      ensures pos.y + ci < |g| && pos.x + cj < w && g[pos.y + ci][pos.x + cj] == expected
    {
      if ci != i || cj != j {
        assert Before(ci, cj, i, j);
      }
    }
  }

  lemma WriteStepWritten(g: Grid, w: nat, p: Piece, pos: Position, i: nat, j: nat, value: int)
    requires WellShaped(p) && Rectangular(g, w) && i < p.height && j < p.width && p.data[i][j] != 0
    requires pos.y + i < |g| && pos.x + j < w
    ensures var h := PartlyWritten(g, w, p, pos, i, j, value);
      h[pos.y + i := h[pos.y + i][pos.x + j := value]] == PartlyWritten(g, w, p, pos, i, j + 1, value)
  {
    var now := PartlyWritten(g, w, p, pos, i, j, value);
    var updated := now[pos.y + i := now[pos.y + i][pos.x + j := value]];
    var next := PartlyWritten(g, w, p, pos, i, j + 1, value);
    forall a, b | 0 <= a < |g| && 0 <= b < w
      ensures updated[a][b] == next[a][b]
    {
      if a != pos.y + i || b != pos.x + j {
        assert updated[a][b] == now[a][b];
        if Covers(p, pos, a, b) {
          assert Before(a - pos.y, b - pos.x, i, j + 1) == Before(a - pos.y, b - pos.x, i, j);
        }
      } else {
        assert Covers(p, pos, a, b) && Before(i, j, i, j + 1);
      }
    }
    GridExt(updated, next, w);
  }

  /** Piece cell (i, j) is non-empty and the board cell under it is off the board or does not
      hold `expected`: the cell at which `place` and `remove` throw. */
  predicate Blocked(g: Grid, w: nat, p: Piece, pos: Position, i: nat, j: nat, expected: int)
    requires WellShaped(p) && Rectangular(g, w) && i < p.height && j < p.width
  {
    p.data[i][j] != 0 && (pos.y + i >= |g| || pos.x + j >= w || g[pos.y + i][pos.x + j] != expected)
  }

  /** A cell is blocked on the partly written board exactly when it was blocked on the board
      the write started with: the cells written so far all come before it. */
  lemma BlockedBefore(g: Grid, w: nat, p: Piece, pos: Position, i: nat, j: nat, expected: int, value: int)
    requires WellShaped(p) && Rectangular(g, w) && i < p.height && j < p.width
    ensures Rectangular(PartlyWritten(g, w, p, pos, i, j, value), w)
    ensures Blocked(PartlyWritten(g, w, p, pos, i, j, value), w, p, pos, i, j, expected) <==> Blocked(g, w, p, pos, i, j, expected)
  {
    if pos.y + i < |g| && pos.x + j < w {
      WrittenCellUntouched(g, w, p, pos, i, j, value);
    }
  }

  lemma WriteFails(g: Grid, w: nat, p: Piece, pos: Position, i: nat, j: nat, expected: int)
    requires WellShaped(p) && Rectangular(g, w) && i < p.height && j < p.width
    requires Blocked(g, w, p, pos, i, j, expected)
    ensures !CanWrite(g, w, p, pos, expected)
  {
    if pos.y + i < |g| && pos.x + j < w {
      assert Covers(p, pos, pos.y + i, pos.x + j);
    }
  }

  lemma NextRow(g: Grid, w: nat, p: Piece, pos: Position, i: nat, expected: int, value: int)
    requires WellShaped(p) && Rectangular(g, w) && i < p.height
    requires PartlyWritable(g, w, p, pos, i, p.width, expected)
    ensures PartlyWritable(g, w, p, pos, i + 1, 0, expected)
    ensures PartlyWritten(g, w, p, pos, i, p.width, value) == PartlyWritten(g, w, p, pos, i + 1, 0, value)
  {
    GridExt(PartlyWritten(g, w, p, pos, i, p.width, value), PartlyWritten(g, w, p, pos, i + 1, 0, value), w);
  }

  lemma AllWritten(g: Grid, w: nat, p: Piece, pos: Position, expected: int, value: int)
    requires WellShaped(p) && Rectangular(g, w)
    requires PartlyWritable(g, w, p, pos, p.height, 0, expected)
    ensures CanWrite(g, w, p, pos, expected)
    ensures PartlyWritten(g, w, p, pos, p.height, 0, value) == Written(g, w, p, pos, value)
  {
    GridExt(PartlyWritten(g, w, p, pos, p.height, 0, value), Written(g, w, p, pos, value), w);
  }

  /** Where the search for the next placement starts: the previous placement's row, and in
      every row one column past the previous placement's column. */
  function FirstRow(previous: Option<Position>): nat
  {
    if previous.None? then 0 else previous.value.y
  }

  function FirstColumn(previous: Option<Position>): nat
  {
    if previous.None? then 0 else previous.value.x + 1
  }

  // ---------------------------------------------------------------------------------------
  // The board.

  class Board {
    const width: nat
    const height: nat
    const data: array2<int>

    ghost predicate Valid()
      reads this
    {
      data.Length0 == height && data.Length1 == width
    }

    ghost function Contents(): (g: Grid)
      reads this, data
      ensures Valid() ==> |g| == height && Rectangular(g, width)
    {
      Cells(data)
    }

    /** An empty board of the given size. */
    constructor (width: nat, height: nat)
      ensures Valid() && this.width == width && this.height == height && fresh(data)
      ensures forall a, b :: 0 <= a < height && 0 <= b < width ==> data[a, b] == 0
    {
      var cells := MakeRectangleData(width, height);
      this.width := width;
      this.height := height;
      data := cells;
    }

    /** `canPlace` in the packer. */
    method CanPlace(p: Piece, x: nat, y: nat) returns (r: bool)
      requires Valid() && WellShaped(p)
      ensures r == Fits(Contents(), width, p, Position(x, y))
    {
      if x + p.width > width {
        return false;
      }
      if y + p.height > height {
        return false;
      }
      for i := 0 to p.height
        invariant forall a, b :: 0 <= a < i && 0 <= b < p.width && p.data[a][b] != 0 ==> data[y + a, x + b] == 0
      {
        for j := 0 to p.width
          invariant forall a, b :: 0 <= a < i && 0 <= b < p.width && p.data[a][b] != 0 ==> data[y + a, x + b] == 0
          invariant forall b :: 0 <= b < j && p.data[i][b] != 0 ==> data[y + i, x + b] == 0
        {
          if p.data[i][j] == 0 {
            continue;
          }
          if data[i + y, j + x] != 0 {
            return false;
          }
        }
      }
      return true;
    }
  
    /** One board cell is set; nothing else changes. */
    method WriteCell(a: nat, b: nat, v: int)
      requires Valid() && a < height && b < width
      modifies data
      ensures Contents() == old(Contents())[a := old(Contents())[a][b := v]]
    {
      data[a, b] := v;
      GridExt(Contents(), old(Contents())[a := old(Contents())[a][b := v]], width);
    }

    /** The loop `place` and `remove` share: in row-major order over the piece's non-empty
        cells, the board cell under each must hold `expected` and is set to `value`. A cell
        outside the board or holding something else makes the packer throw (here: fail), with
        the cells before it already set. */
    method Write(p: Piece, pos: Position, expected: int, value: int) returns (ok: bool)
      requires Valid() && WellShaped(p)
      modifies data
      ensures ok <==> CanWrite(old(Contents()), width, p, pos, expected)
      ensures ok ==> Contents() == Written(old(Contents()), width, p, pos, value)
      ensures !ok ==> exists i: nat, j: nat ::
        (i < p.height && j < p.width && Contents() == PartlyWritten(old(Contents()), width, p, pos, i, j, value)
         && PartlyWritable(old(Contents()), width, p, pos, i, j, expected) && Blocked(old(Contents()), width, p, pos, i, j, expected))
    {
      ghost var before := Contents();
      NothingWritten(before, width, p, pos, value);
      for i := 0 to p.height
        invariant Contents() == PartlyWritten(before, width, p, pos, i, 0, value)
        invariant PartlyWritable(before, width, p, pos, i, 0, expected)
      {
        ok := WriteRow(p, pos, expected, value, before, i);
        if !ok {
          ghost var j: nat :| j < p.width && Contents() == PartlyWritten(before, width, p, pos, i, j, value)
            && PartlyWritable(before, width, p, pos, i, j, expected) && Blocked(before, width, p, pos, i, j, expected);
          return;
        }
      }
      AllWritten(before, width, p, pos, expected, value);
      return true;
    }

    /** Piece row `i` of `Write`, from the board `before` the whole write started with. */
    method WriteRow(p: Piece, pos: Position, expected: int, value: int, ghost before: Grid, i: nat) returns (ok: bool)
      requires Valid() && WellShaped(p) && i < p.height && |before| == height && Rectangular(before, width)
      requires Contents() == PartlyWritten(before, width, p, pos, i, 0, value)
      requires PartlyWritable(before, width, p, pos, i, 0, expected)
      modifies data
      ensures ok ==> Contents() == PartlyWritten(before, width, p, pos, i + 1, 0, value)
      ensures ok ==> PartlyWritable(before, width, p, pos, i + 1, 0, expected)
      ensures !ok ==> !CanWrite(before, width, p, pos, expected)
      ensures !ok ==> exists j: nat ::
        (j < p.width && Contents() == PartlyWritten(before, width, p, pos, i, j, value)
         && PartlyWritable(before, width, p, pos, i, j, expected) && Blocked(before, width, p, pos, i, j, expected))
    {
      for j := 0 to p.width
        invariant Contents() == PartlyWritten(before, width, p, pos, i, j, value)
        invariant PartlyWritable(before, width, p, pos, i, j, expected)
      {
        ok := WriteAt(p, pos, expected, value, before, i, j);
        if !ok {
          return false;
        }
      }
      NextRow(before, width, p, pos, i, expected, value);
      return true;
    }

    /** Piece cell (i, j) of `Write`: skipped when empty, otherwise checked and written. */
    method WriteAt(p: Piece, pos: Position, expected: int, value: int, ghost before: Grid, i: nat, j: nat)
      returns (ok: bool)
      requires Valid() && WellShaped(p) && i < p.height && j < p.width
      requires |before| == height && Rectangular(before, width)
      requires Contents() == PartlyWritten(before, width, p, pos, i, j, value)
      requires PartlyWritable(before, width, p, pos, i, j, expected)
      modifies data
      ensures ok ==> Contents() == PartlyWritten(before, width, p, pos, i, j + 1, value)
      ensures ok ==> PartlyWritable(before, width, p, pos, i, j + 1, expected)
      ensures !ok ==> Blocked(before, width, p, pos, i, j, expected) && Blocked(old(Contents()), width, p, pos, i, j, expected)
      ensures !ok ==> !CanWrite(before, width, p, pos, expected) && Contents() == old(Contents())
    {
      var a := pos.y + i;
      var b := pos.x + j;
      if p.data[i][j] == 0 {
        SkipEmpty(before, width, p, pos, i, j, expected, value);
        return true;
      }
      ghost var current := Contents();
      if a >= height || b >= width || data[a, b] != expected {
        assert a < height && b < width ==> current[a][b] == data[a, b];
        assert Blocked(current, width, p, pos, i, j, expected);
        BlockedBefore(before, width, p, pos, i, j, expected, value);
        WriteFails(before, width, p, pos, i, j, expected);
        return false;
      }
      assert current[a][b] == data[a, b];
      WriteStep(before, width, p, pos, i, j, expected, value);
      ghost var next := current[a := current[a][b := value]];
      assert next == PartlyWritten(before, width, p, pos, i, j + 1, value);
      WriteCell(a, b, value);
      assert Contents() == next;
      return true;
    }

    /** `place` in the packer: writes the piece's id into every board cell under a non-empty
        cell of the piece, each of which must be empty. */
    method Place(p: Piece, pos: Position) returns (ok: bool)
      requires Valid() && WellShaped(p)
      modifies data
      ensures ok <==> CanWrite(old(Contents()), width, p, pos, 0)
      ensures ok ==> Contents() == Written(old(Contents()), width, p, pos, p.id)
      ensures !ok ==> exists i: nat, j: nat ::
        (i < p.height && j < p.width && Contents() == PartlyWritten(old(Contents()), width, p, pos, i, j, p.id)
         && PartlyWritable(old(Contents()), width, p, pos, i, j, 0) && Blocked(old(Contents()), width, p, pos, i, j, 0))
    {
      ok := Write(p, pos, 0, p.id);
    }

    /** `remove` in the packer: clears every board cell under a non-empty cell of the piece,
        each of which must hold the piece's id. */
    method Remove(p: Piece, pos: Position) returns (ok: bool)
      requires Valid() && WellShaped(p)
      modifies data
      ensures ok <==> CanWrite(old(Contents()), width, p, pos, p.id)
      ensures ok ==> Contents() == Written(old(Contents()), width, p, pos, 0)
      ensures !ok ==> exists i: nat, j: nat ::
        (i < p.height && j < p.width && Contents() == PartlyWritten(old(Contents()), width, p, pos, i, j, 0)
         && PartlyWritable(old(Contents()), width, p, pos, i, j, p.id) && Blocked(old(Contents()), width, p, pos, i, j, p.id))
    {
      ok := Write(p, pos, p.id, 0);
    }


    /** `findNextPlaceFor` in the packer: scans rows from the previous placement's row and, in
        every row, columns from one past the previous placement's column, and answers the first
        position where the piece fits. */
    method FindNextPlaceFor(p: Piece, previous: Option<Position>) returns (r: Option<Position>)
      requires Valid() && WellShaped(p)
      ensures r.Some? ==> Fits(Contents(), width, p, r.value)
      ensures r.Some? ==> FirstRow(previous) <= r.value.y < height && FirstColumn(previous) <= r.value.x < width
      ensures r.Some? ==> forall y, x ::
        (FirstRow(previous) <= y <= r.value.y && FirstColumn(previous) <= x < width && (y < r.value.y || x < r.value.x)) ==>
        !Fits(Contents(), width, p, Position(x, y))
      ensures r.None? ==> forall y, x :: FirstRow(previous) <= y < height && FirstColumn(previous) <= x < width ==>
        !Fits(Contents(), width, p, Position(x, y))
    {
      var y := FirstRow(previous);
      while y < height
        invariant FirstRow(previous) <= y
        invariant forall y', x :: FirstRow(previous) <= y' < y && FirstColumn(previous) <= x < width ==>
          !Fits(Contents(), width, p, Position(x, y'))
      {
        var found := ScanRow(p, FirstColumn(previous), y);
        if found.Some? {
          return Some(Position(found.value, y));
        }
        y := y + 1;
      }
      return None;
    }

    /** The inner loop of `findNextPlaceFor`: the first column from `start` on where the piece
        fits in row `y`. */
    method ScanRow(p: Piece, start: nat, y: nat) returns (r: Option<nat>)
      requires Valid() && WellShaped(p)
      ensures r.Some? ==> start <= r.value < width && Fits(Contents(), width, p, Position(r.value, y))
      ensures r.Some? ==> forall x :: start <= x < r.value ==> !Fits(Contents(), width, p, Position(x, y))
      ensures r.None? ==> forall x :: start <= x < width ==> !Fits(Contents(), width, p, Position(x, y))
    {
      var x := start;
      while x < width
        invariant start <= x
        invariant forall x' :: start <= x' < x && x' < width ==> !Fits(Contents(), width, p, Position(x', y))
      {
        var fits := CanPlace(p, x, y);
        if fits {
          return Some(x);
        }
        x := x + 1;
      }
      return None;
    }
  }

  // ---------------------------------------------------------------------------------------
  // The store of solutions.

  /** Grid `e` is `g` or `g` turned half way round. */
  predicate SameUpToHalfTurn(e: Grid, g: Grid, w: nat)
    requires Rectangular(g, w)
  {
    e == g || e == Rot180(g, w)
  }

  /** Some stored solution is `g` or its half turn. */
  predicate Duplicate(solutions: seq<Grid>, g: Grid, w: nat)
    requires Rectangular(g, w)
  {
    exists e :: e in solutions && SameUpToHalfTurn(e, g, w)
  }

  /** No stored solution is a later one or a half turn of a later one. */
  predicate Distinct(solutions: seq<Grid>, w: nat)
  {
    forall i, j :: 0 <= i < j < |solutions| && Rectangular(solutions[j], w) ==>
      !SameUpToHalfTurn(solutions[i], solutions[j], w)
  }

  /** Being the same up to a half turn does not depend on which grid is turned. */
  lemma SameUpToHalfTurnSymmetric(e: Grid, g: Grid, w: nat)
    requires Rectangular(e, w) && Rectangular(g, w)
    ensures SameUpToHalfTurn(e, g, w) <==> SameUpToHalfTurn(g, e, w)
  {
    if e == Rot180(g, w) {
      Rot180Involutive(g, w);
    }
    if g == Rot180(e, w) {
      Rot180Involutive(e, w);
    }
  }

  /** A board and its half turn are recognised as duplicates alike. */
  lemma DuplicateOfHalfTurn(solutions: seq<Grid>, g: Grid, w: nat)
    requires Rectangular(g, w)
    ensures Duplicate(solutions, Rot180(g, w), w) <==> Duplicate(solutions, g, w)
  {
    Rot180Involutive(g, w);
    if Duplicate(solutions, g, w) {
      var e :| e in solutions && SameUpToHalfTurn(e, g, w);
      assert SameUpToHalfTurn(e, Rot180(g, w), w);
    }
    if Duplicate(solutions, Rot180(g, w), w) {
      var e :| e in solutions && SameUpToHalfTurn(e, Rot180(g, w), w);
      assert SameUpToHalfTurn(e, g, w);
    }
  }

  /** Once a solution is stored, it and its half turn are rejected. */
  lemma StoredIsRejected(solutions: seq<Grid>, g: Grid, w: nat)
    requires Rectangular(g, w)
    ensures Duplicate(solutions + [g], g, w) && Duplicate(solutions + [g], Rot180(g, w), w)
  {
    assert g in solutions + [g] && SameUpToHalfTurn(g, g, w);
    DuplicateOfHalfTurn(solutions + [g], g, w);
  }

  /** Storing only what is not a duplicate keeps the store free of duplicates. */
  lemma AppendKeepsDistinct(solutions: seq<Grid>, g: Grid, w: nat)
    requires Distinct(solutions, w) && Rectangular(g, w) && !Duplicate(solutions, g, w)
    ensures Distinct(solutions + [g], w)
  {
    var s := solutions + [g];
    forall i, j | 0 <= i < j < |s| && Rectangular(s[j], w)
      ensures !SameUpToHalfTurn(s[i], s[j], w)
    {
      if j == |solutions| {
        assert s[i] in solutions;
      }
    }
  }

  /** Compares a stored solution with the board cell by cell, as the first scan of `processSolution` does
      (without stopping at the first difference). */
  method SameCells(e: Grid, data: array2<int>) returns (same: bool)
    requires |e| == data.Length0 && Rectangular(e, data.Length1)
    ensures same <==> e == Cells(data)
  {
    same := true;
    for y := 0 to data.Length0
      invariant same <==> forall r, c :: 0 <= r < y && 0 <= c < data.Length1 ==> e[r][c] == data[r, c]
    {
      for x := 0 to data.Length1
        invariant same <==> (forall r, c :: 0 <= r < y && 0 <= c < data.Length1 ==> e[r][c] == data[r, c])
                            && forall c :: 0 <= c < x ==> e[y][c] == data[y, c]
      {
        if e[y][x] != data[y, x] {
          same := false;
        }
      }
    }
    if same {
      GridExt(e, Cells(data), data.Length1);
    } else {
      var r, c :| 0 <= r < data.Length0 && 0 <= c < data.Length1 && e[r][c] != data[r, c];
      assert e[r][c] != Cells(data)[r][c];
    }
  }

  /** Compares a stored solution with the board turned half way round, as the second scan of
      `processSolution` does. */
  method SameHalfTurn(e: Grid, data: array2<int>) returns (same: bool)
    requires |e| == data.Length0 && Rectangular(e, data.Length1)
    ensures same <==> e == Rot180(Cells(data), data.Length1)
  {
    var height := data.Length0;
    var width := data.Length1;
    same := true;
    for y := 0 to height
      invariant same <==> forall r, c :: 0 <= r < y && 0 <= c < width ==> e[r][c] == data[height - r - 1, width - c - 1]
    {
      for x := 0 to width
        invariant same <==> (forall r, c :: 0 <= r < y && 0 <= c < width ==> e[r][c] == data[height - r - 1, width - c - 1])
                            && forall c :: 0 <= c < x ==> e[y][c] == data[height - y - 1, width - c - 1]
      {
        if e[y][x] != data[height - y - 1, width - x - 1] {
          same := false;
        }
      }
    }
    var turned := Rot180(Cells(data), width);
    if same {
      GridExt(e, turned, width);
    } else {
      var r, c :| 0 <= r < height && 0 <= c < width && e[r][c] != data[height - r - 1, width - c - 1];
      assert e[r][c] != turned[r][c];
    }
  }

  /** The copy `processSolution` stores: a fresh rectangle filled cell by cell from the board. */
  method CopyCells(data: array2<int>) returns (g: Grid)
    ensures g == Cells(data)
  {
    var copy := MakeRectangleData(data.Length1, data.Length0);
    for y := 0 to data.Length0
      invariant forall r, c :: 0 <= r < y && 0 <= c < data.Length1 ==> copy[r, c] == data[r, c]
    {
      for x := 0 to data.Length1
        invariant forall r, c :: 0 <= r < y && 0 <= c < data.Length1 ==> copy[r, c] == data[r, c]
        invariant forall c :: 0 <= c < x ==> copy[y, c] == data[y, c]
      {
        copy[y, x] := data[y, x];
      }
    }
    g := Snapshot(copy);
    GridExt(g, Cells(data), data.Length1);
  }

  // ---------------------------------------------------------------------------------------
  // The backtracking search.

  /** How many pieces are currently on the board. */
  function CountTrue(flags: seq<bool>): (n: nat)
    ensures n <= |flags|
  {
    if flags == [] then 0 else (if flags[0] then 1 else 0) + CountTrue(flags[1..])
  }

  /** Marking one more piece as placed adds one to the count. */
  lemma {:induction false} CountTrueSet(flags: seq<bool>, i: nat)
    requires i < |flags| && !flags[i]
    ensures CountTrue(flags[i := true]) == CountTrue(flags) + 1
  {
    if i == 0 {
      assert flags[i := true][1..] == flags[1..];
    } else {
      assert flags[i := true][1..] == flags[1..][i - 1 := true];
      CountTrueSet(flags[1..], i - 1);
    }
  }

  lemma {:induction false} CountTrueNone(flags: seq<bool>)
    requires forall k :: 0 <= k < |flags| ==> !flags[k]
    ensures CountTrue(flags) == 0
  {
    if flags != [] {
      CountTrueNone(flags[1..]);
    }
  }

  /** The solver's state: the board, the four orientations of every piece, which pieces are on
      the board, and the solutions found so far. */
  class Packer {
    const board: Board
    const rotations: seq<seq<Piece>>
    const placed: array<bool>
    var solutions: seq<Grid>

    ghost predicate Valid()
      reads this, board
    {
      && board.Valid() && board.height > 0 && placed.Length == |rotations|
      && (forall i, k :: 0 <= i < |rotations| && 0 <= k < |rotations[i]| ==> WellShaped(rotations[i][k]))
      && (forall k :: 0 <= k < |solutions| ==> |solutions[k]| == board.height && Rectangular(solutions[k], board.width))
      && Distinct(solutions, board.width)
    }

    /** The solver's set-up: piece `k` gets id `k + 1` and its four orientations; the board is
        6 cells wide and 7 high and empty; no piece is placed and nothing is stored. */
    constructor (shapes: seq<Grid>)
      requires forall k :: 0 <= k < |shapes| ==> |shapes[k]| > 0 && Rectangular(shapes[k], |shapes[k][0]|)
      ensures Valid() && fresh(board) && fresh(board.data) && fresh(placed)
      ensures board.width == 6 && board.height == 7
      ensures forall a, b :: 0 <= a < 7 && 0 <= b < 6 ==> board.data[a, b] == 0
      ensures |rotations| == |shapes|
      ensures forall k :: 0 <= k < |shapes| ==>
        rotations[k] == Orientations(Piece(|shapes[k][0]|, |shapes[k]|, shapes[k], k + 1))
      ensures placed[..] == seq(|shapes|, _ => false) && solutions == []
    {
      var all: seq<seq<Piece>> := [];
      for k := 0 to |shapes|
        invariant |all| == k
        invariant forall k' :: 0 <= k' < k ==>
          all[k'] == Orientations(Piece(|shapes[k'][0]|, |shapes[k']|, shapes[k'], k' + 1))
      {
        var p := Piece(|shapes[k][0]|, |shapes[k]|, shapes[k], k + 1);
        var rs := MakeRotations(p);
        all := all + [rs];
      }
      var b := new Board(6, 7);
      board := b;
      rotations := all;
      placed := new bool[|shapes|](_ => false);
      solutions := [];
    }

    /** `processSolution` in the packer: the board is stored, as a copy, unless it or its half
        turn is already stored. */
    method ProcessSolution(data: array2<int>) returns (added: bool)
      requires Valid() && data.Length0 == board.height && data.Length1 == board.width
      modifies this
      ensures Valid()
      ensures added <==> !Duplicate(old(solutions), Cells(data), board.width)
      ensures solutions == if added then old(solutions) + [Cells(data)] else old(solutions)
    {
      for k := 0 to |solutions|
        invariant solutions == old(solutions)
        invariant forall k' :: 0 <= k' < k ==> solutions[k'] != Cells(data)
      {
        var same := SameCells(solutions[k], data);
        if same {
          assert solutions[k] in old(solutions) && SameUpToHalfTurn(solutions[k], Cells(data), board.width);
          return false;
        }
      }
      for k := 0 to |solutions|
        invariant solutions == old(solutions)
        invariant forall k' :: 0 <= k' < k ==> solutions[k'] != Rot180(Cells(data), board.width)
      {
        var same := SameHalfTurn(solutions[k], data);
        if same {
          assert solutions[k] in old(solutions) && SameUpToHalfTurn(solutions[k], Cells(data), board.width);
          return false;
        }
      }
      var g := CopyCells(data);
      AppendKeepsDistinct(solutions, g, board.width);
      solutions := solutions + [g];
      return true;
    }

    /** `go` in the packer: at depth `pieces + 1` every piece is on the board and the board is
        offered to `processSolution`; then every piece not yet placed is tried in every
        orientation at every position, and the board and the flags are restored after each
        branch. The depth is one more than the number of placed pieces, so it never exceeds
        the number of pieces plus one. */
    method Go(depth: nat)
      requires Valid() && depth == 1 + CountTrue(placed[..])
      modifies this, board.data, placed
      decreases |rotations| + 1 - depth, 2
      ensures Valid() && board.Contents() == old(board.Contents()) && placed[..] == old(placed[..])
      ensures old(solutions) <= solutions
    {
      if depth == |rotations| + 1 {
        var added := ProcessSolution(board.data);
      }
      for i := 0 to |rotations|
        invariant Valid() && board.Contents() == old(board.Contents()) && placed[..] == old(placed[..])
        invariant old(solutions) <= solutions
      {
        if placed[i] {
          continue;
        }
        TryPiece(i, depth);
      }
    }

    /** One turn of the outer loop of `go`: the piece is marked as placed, each of its
        orientations is tried, and the mark is cleared again. */
    method TryPiece(i: nat, depth: nat)
      requires Valid() && i < |rotations| && !placed[i] && depth == 1 + CountTrue(placed[..])
      modifies this, board.data, placed
      decreases |rotations| + 1 - depth, 1
      ensures Valid() && board.Contents() == old(board.Contents()) && placed[..] == old(placed[..])
      ensures old(solutions) <= solutions
    {
      ghost var flags := placed[..];
      CountTrueSet(flags, i);
      placed[i] := true;
      assert placed[..] == flags[i := true];
      for k := 0 to |rotations[i]|
        invariant Valid() && board.Contents() == old(board.Contents()) && placed[..] == flags[i := true]
        invariant old(solutions) <= solutions
      {
        TryOrientation(rotations[i][k], depth);
      }
      placed[i] := false;
      assert placed[..] == flags;
    }

    /** The `while (true)` loop of `go` for one orientation: every position found by
        `findNextPlaceFor`, each after the last, gets the piece placed, the search one level
        deeper, and the piece removed. */
    method TryOrientation(r: Piece, depth: nat)
      requires Valid() && WellShaped(r) && depth == CountTrue(placed[..])
      modifies this, board.data, placed
      decreases |rotations| + 1 - depth, 0
      ensures Valid() && board.Contents() == old(board.Contents()) && placed[..] == old(placed[..])
      ensures old(solutions) <= solutions
    {
      var previous: Option<Position> := None;
      while true
        invariant Valid() && board.Contents() == old(board.Contents()) && placed[..] == old(placed[..])
        invariant old(solutions) <= solutions
        invariant previous.Some? ==> previous.value.x < board.width
        decreases if previous.None? then board.width + 1 else board.width - previous.value.x
      {
        var placement := board.FindNextPlaceFor(r, previous);
        if placement.None? {
          break;
        }
        previous := placement;
        var pos := placement.value;
        ghost var start := board.Contents();
        FitsCanWrite(start, board.width, r, pos);
        RemoveUndoesPlace(start, board.width, r, pos);
        var placedOk := board.Place(r, pos);
        Go(depth + 1);
        var removedOk := board.Remove(r, pos);
      }
    }
  }

  /** The program as a whole: the pieces are set up, the search runs from depth 1, and the
      stored solutions are returned. They are 7 by 6 boards, no two the same up to a half
      turn. */
  method Solve(shapes: seq<Grid>) returns (solutions: seq<Grid>)
    requires forall k :: 0 <= k < |shapes| ==> |shapes[k]| > 0 && Rectangular(shapes[k], |shapes[k][0]|)
    ensures Distinct(solutions, 6)
    ensures forall k :: 0 <= k < |solutions| ==> |solutions[k]| == 7 && Rectangular(solutions[k], 6)
  {
    var packer := new Packer(shapes);
    CountTrueNone(packer.placed[..]);
    packer.Go(1);
    solutions := packer.solutions;
  }
}
