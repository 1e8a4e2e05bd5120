/** Areas of effect as matrices around a centre, and their rotations towards the four directions. */
module AreaRotation {
  import opened Arithmetic

  /** Cells row by row; the centre as column and row. */
  datatype MatrixArea = MatrixArea(arr: seq<bool>, centerX: nat, centerY: nat, rows: nat, cols: nat)

  datatype Position = Position(x: int, y: int, z: int)

  /** A rectangle with its centre inside. */
  ghost predicate Proper(a: MatrixArea) {
    |a.arr| == a.rows * a.cols && a.centerX < a.cols && a.centerY < a.rows
  }

  lemma {:induction false} IndexInside(row: int, col: int, rows: nat, cols: nat)
    requires 0 <= row < rows && 0 <= col < cols
    ensures 0 <= row * cols + col < rows * cols
    ensures (row * cols + col) / cols == row && (row * cols + col) % cols == col
  {
    assert row * cols >= 0;
    assert (row + 1) * cols <= rows * cols;
    assert (row + 1) * cols == row * cols + cols;
    Divided(row, col, cols);
  }

  lemma {:induction false} Divided(row: int, col: int, cols: nat)
    requires 0 <= col < cols
    ensures (row * cols + col) / cols == row && (row * cols + col) % cols == col
  {
    var v := row * cols + col;
    assert v == cols * (v / cols) + v % cols;
    var q := v / cols - row;
    assert cols * q == col - v % cols by { assert cols * q == cols * (v / cols) - cols * row; }
    Scaled(1, q, cols);
    Scaled(q, -1, cols);
  }

  lemma {:induction false} IndexSplit(k: int, rows: nat, cols: nat)
    requires 0 <= k < rows * cols
    ensures cols > 0 && 0 <= k / cols < rows && 0 <= k % cols < cols && (k / cols) * cols + k % cols == k
  {
    assert cols > 0;
    assert k == cols * (k / cols) + k % cols;
    Scaled(rows, k / cols, cols);
    Scaled(k / cols, -1, cols);
  }

  function Cell(a: MatrixArea, row: int, col: int): bool
    requires Proper(a) && 0 <= row < a.rows && 0 <= col < a.cols
  {
    IndexInside(row, col, a.rows, a.cols);
    a.arr[row * a.cols + col]
  }

  /** The area covers the tile that lies `dx` to the east and `dy` to the south of the centre. */
  predicate Has(a: MatrixArea, dx: int, dy: int)
    requires Proper(a)
  {
    0 <= a.centerY + dy < a.rows && 0 <= a.centerX + dx < a.cols && Cell(a, a.centerY + dy, a.centerX + dx)
  }

  lemma {:induction false} SameCells(a: MatrixArea, b: MatrixArea)
    requires Proper(a) && Proper(b) && a.rows == b.rows && a.cols == b.cols && a.centerX == b.centerX
    requires a.centerY == b.centerY
    requires forall row, col :: 0 <= row < a.rows && 0 <= col < a.cols ==> Cell(a, row, col) == Cell(b, row, col)
    ensures a == b
  {
    forall k | 0 <= k < |a.arr| ensures a.arr[k] == b.arr[k] {
      IndexSplit(k, a.rows, a.cols);
      assert Cell(a, k / a.cols, k % a.cols) == Cell(b, k / a.cols, k % a.cols);
    }
    assert a.arr == b.arr;
  }

  // --------------------------------------------------------- the rotations

  function Turned90(a: MatrixArea): MatrixArea
    requires Proper(a)
  {
    MatrixArea(seq(a.cols * a.rows, k requires 0 <= k < a.cols * a.rows =>
                     IndexSplit(k, a.cols, a.rows); Cell(a, a.rows - 1 - k % a.rows, k / a.rows)),
               a.rows - a.centerY - 1, a.centerX, a.cols, a.rows)
  }

  function Turned180(a: MatrixArea): MatrixArea
    requires Proper(a)
  {
    MatrixArea(seq(a.rows * a.cols, k requires 0 <= k < a.rows * a.cols => a.arr[a.rows * a.cols - 1 - k]),
               a.cols - a.centerX - 1, a.rows - a.centerY - 1, a.rows, a.cols)
  }

  function Turned270(a: MatrixArea): MatrixArea
    requires Proper(a)
  {
    MatrixArea(seq(a.cols * a.rows, k requires 0 <= k < a.cols * a.rows =>
                     IndexSplit(k, a.cols, a.rows); Cell(a, k % a.rows, a.cols - 1 - k / a.rows)),
               a.centerY, a.cols - a.centerX - 1, a.cols, a.rows)
  }

  lemma {:induction false} Cells90(a: MatrixArea)
    requires Proper(a)
    ensures Proper(Turned90(a))
    ensures forall row, col :: 0 <= row < a.cols && 0 <= col < a.rows ==>
              Cell(Turned90(a), row, col) == Cell(a, a.rows - 1 - col, row)
  {
    forall row, col | 0 <= row < a.cols && 0 <= col < a.rows
      ensures Cell(Turned90(a), row, col) == Cell(a, a.rows - 1 - col, row)
    { IndexInside(row, col, a.cols, a.rows); }
  }

  lemma {:induction false} Cells180(a: MatrixArea)
    requires Proper(a)
    ensures Proper(Turned180(a))
    ensures forall row, col :: 0 <= row < a.rows && 0 <= col < a.cols ==>
              Cell(Turned180(a), row, col) == Cell(a, a.rows - 1 - row, a.cols - 1 - col)
  {
    forall row, col | 0 <= row < a.rows && 0 <= col < a.cols
      ensures Cell(Turned180(a), row, col) == Cell(a, a.rows - 1 - row, a.cols - 1 - col)
    {
      Opposite(row, col, a.rows, a.cols);
    }
  }

  /** The cell with as many cells behind it as the given one has before it. */
  lemma {:induction false} Opposite(row: int, col: int, rows: nat, cols: nat)
    requires 0 <= row < rows && 0 <= col < cols
    ensures 0 <= row * cols + col < rows * cols
    ensures rows * cols - 1 - (row * cols + col) == (rows - 1 - row) * cols + (cols - 1 - col)
  {
    IndexInside(row, col, rows, cols);
    assert (rows - 1 - row) * cols == rows * cols - cols - row * cols;
  }

  lemma {:induction false} Cells270(a: MatrixArea)
    requires Proper(a)
    ensures Proper(Turned270(a))
    ensures forall row, col :: 0 <= row < a.cols && 0 <= col < a.rows ==>
              Cell(Turned270(a), row, col) == Cell(a, col, a.cols - 1 - row)
  {
    forall row, col | 0 <= row < a.cols && 0 <= col < a.rows
      ensures Cell(Turned270(a), row, col) == Cell(a, col, a.cols - 1 - row)
    { IndexInside(row, col, a.cols, a.rows); }
  }

  /** A tile `(dx, dy)` of an area comes to lie at `(-dy, dx)`, `(-dx, -dy)` and `(dy, -dx)`. */
  lemma {:induction false} TurnsOffsets(a: MatrixArea, dx: int, dy: int)
    requires Proper(a)
    ensures Proper(Turned90(a)) && (Has(Turned90(a), -dy, dx) <==> Has(a, dx, dy))
    ensures Proper(Turned180(a)) && (Has(Turned180(a), -dx, -dy) <==> Has(a, dx, dy))
    ensures Proper(Turned270(a)) && (Has(Turned270(a), dy, -dx) <==> Has(a, dx, dy))
  {
    Cells90(a);
    Cells180(a);
    Cells270(a);
  }

  /** Two quarter turns are a half turn, a quarter turn and three more are none, and so are four. */
  lemma {:induction false} TurnLaws(a: MatrixArea)
    requires Proper(a)
    ensures Proper(Turned90(a)) && Turned90(Turned90(a)) == Turned180(a)
    ensures Turned270(Turned90(a)) == a
    ensures Proper(Turned180(a)) && Turned90(Turned180(a)) == Turned270(a)
    ensures Proper(Turned270(a)) && Turned90(Turned270(a)) == a
  {
    Cells90(a);
    Cells180(a);
    Cells270(a);
    var b := Turned90(a);
    Cells90(b);
    Cells270(b);
    SameCells(Turned90(b), Turned180(a));
    SameCells(Turned270(b), a);
    Cells90(Turned180(a));
    SameCells(Turned90(Turned180(a)), Turned270(a));
    Cells90(Turned270(a));
    SameCells(Turned90(Turned270(a)), a);
  }

  // ------------------------------------------------------- the slice loops

  /** Both slices lie inside. */
  ghost predicate SliceFits(to: nat, start: nat, stride: nat, from: nat, first: nat, step: nat, size: nat) {
    forall k: nat :: k < size ==> start + k * stride < to && first + k * step < from
  }

  predicate OnSlice(j: int, start: nat, size: nat, stride: nat)
    requires stride > 0
  {
    j >= start && (j - start) % stride == 0 && (j - start) / stride < size
  }

  lemma {:induction false} SliceGrows(j: int, start: nat, k: nat, stride: nat)
    requires stride > 0
    ensures OnSlice(j, start, k + 1, stride) <==> OnSlice(j, start, k, stride) || j == start + k * stride
  {
    Divided(k, 0, stride);
    assert j - start == stride * ((j - start) / stride) + (j - start) % stride;
  }

  /** Assigns a strided slice of one array from a strided slice of another. */
  method AssignSlice(to: array<bool>, start: nat, stride: nat, from: seq<bool>, first: nat, step: nat, size: nat)
    requires stride > 0 && SliceFits(to.Length, start, stride, |from|, first, step, size)
    modifies to
    ensures forall j :: 0 <= j < to.Length ==>
              to[j] == if OnSlice(j, start, size, stride) then from[first + ((j - start) / stride) * step]
                       else old(to[j])
  {
    var k := 0;
    while k < size
      invariant 0 <= k <= size
      invariant forall j :: 0 <= j < to.Length ==>
                to[j] == if OnSlice(j, start, k, stride) then from[first + ((j - start) / stride) * step]
                         else old(to[j])
    {
      to[start + k * stride] := from[first + k * step];
      forall j | 0 <= j < to.Length ensures OnSlice(j, start, k + 1, stride)
            <==> OnSlice(j, start, k, stride) || j == start + k * stride {
        SliceGrows(j, start, k, stride);
      }
      Divided(k, 0, stride);
      k := k + 1;
    }
  }

  lemma {:induction false} ColumnIsRow(a: MatrixArea, i: nat, j: nat, first: int)
    requires Proper(a) && i < a.rows && j < a.cols * a.rows && j % a.rows == i && first == (a.rows - i - 1) * a.cols
    ensures 0 <= first + (j / a.rows) * 1 < |a.arr| && Turned90(a).arr[j] == a.arr[first + (j / a.rows) * 1]
  {
    IndexSplit(j, a.cols, a.rows);
    IndexInside(a.rows - i - 1, j / a.rows, a.rows, a.cols);
  }

  lemma {:induction false} ColumnFits(a: MatrixArea, i: nat)
    requires Proper(a) && i < a.rows
    ensures (a.rows - i - 1) * a.cols >= 0
    ensures SliceFits(a.cols * a.rows, i, a.rows, |a.arr|, (a.rows - i - 1) * a.cols, 1, a.cols)
  {
    forall k: nat | k < a.cols ensures i + k * a.rows < a.cols * a.rows && (a.rows - i - 1) * a.cols + k * 1 < |a.arr| {
      IndexInside(k, i, a.cols, a.rows);
      IndexInside(a.rows - i - 1, k, a.rows, a.cols);
    }
    Scaled(0, a.rows - i - 1, a.cols);
  }

  lemma {:induction false} ColumnCell(a: MatrixArea, i: nat, j: nat, first: nat, now: bool, was: bool)
    requires Proper(a) && i < a.rows && j < a.cols * a.rows && first == (a.rows - i - 1) * a.cols
    requires SliceFits(a.cols * a.rows, i, a.rows, |a.arr|, first, 1, a.cols)
    requires now == if OnSlice(j, i, a.cols, a.rows) then a.arr[first + ((j - i) / a.rows) * 1] else was
    ensures now == if j % a.rows == i then Turned90(a).arr[j] else was
  {
    ColumnSlice(j, i, a.cols, a.rows);
    if j % a.rows == i { ColumnIsRow(a, i, j, first); }
  }

  /** The row that becomes column `i`. */
  method RowToColumn(a: MatrixArea, newArr: array<bool>, i: nat)
    requires Proper(a) && i < a.rows && newArr.Length == a.cols * a.rows
    modifies newArr
    ensures forall j :: 0 <= j < newArr.Length ==>
              newArr[j] == if j % a.rows == i then Turned90(a).arr[j] else old(newArr[j])
  {
    ColumnFits(a, i);
    var first := (a.rows - i - 1) * a.cols;
    AssignSlice(newArr, i, a.rows, a.arr, first, 1, a.cols);
    forall j | 0 <= j < newArr.Length
      ensures newArr[j] == if j % a.rows == i then Turned90(a).arr[j] else old(newArr[j])
    {
      ColumnCell(a, i, j, first, newArr[j], old(newArr[j]));
    }
  }

  method Rotate90(a: MatrixArea) returns (r: MatrixArea)
    requires Proper(a)
    ensures r == Turned90(a)
  {
    var newArr := new bool[a.cols * a.rows];
    ghost var want := Turned90(a).arr;
    var i := 0;
    while i < a.rows
      invariant 0 <= i <= a.rows
      invariant forall j :: 0 <= j < newArr.Length && j % a.rows < i ==> newArr[j] == want[j]
    {
      RowToColumn(a, newArr, i);
      i := i + 1;
    }
    forall j | 0 <= j < newArr.Length ensures newArr[j] == want[j] { IndexSplit(j, a.cols, a.rows); }
    assert newArr[..] == want;
    r := MatrixArea(newArr[..], a.rows - a.centerY - 1, a.centerX, a.cols, a.rows);
  }

  /** Cell `j` lies in column `i` exactly when the slice of that column reaches it. */
  lemma {:induction false} ColumnSlice(j: nat, i: nat, rows: nat, cols: nat)
    requires j < rows * cols && i < cols
    ensures OnSlice(j, i, rows, cols) <==> j % cols == i
    ensures j % cols == i ==> (j - i) / cols == j / cols
  {
    IndexSplit(j, rows, cols);
    var q := j / cols;
    if j % cols == i {
      Divided(q, 0, cols);
    } else if OnSlice(j, i, rows, cols) {
      var k := (j - i) / cols;
      assert j - i == cols * k;
      Divided(k, i, cols);
    }
  }

  method Rotate180(a: MatrixArea) returns (r: MatrixArea)
    requires Proper(a)
    ensures r == Turned180(a)
  {
    var newArr := new bool[|a.arr|];
    var i := 0;
    while i < |a.arr|
      invariant 0 <= i <= |a.arr|
      invariant forall j :: 0 <= j < i ==> newArr[j] == a.arr[|a.arr| - 1 - j]
    {
      newArr[i] := a.arr[|a.arr| - 1 - i];
      i := i + 1;
    }
    assert newArr[..] == Turned180(a).arr;
    r := MatrixArea(newArr[..], a.cols - a.centerX - 1, a.rows - a.centerY - 1, a.rows, a.cols);
  }

  lemma {:induction false} RowFits(a: MatrixArea, i: nat)
    requires Proper(a) && i < a.cols
    ensures SliceFits(a.cols * a.rows, i * a.rows, 1, |a.arr|, a.cols - i - 1, a.cols, a.rows)
  {
    forall k: nat | k < a.rows ensures i * a.rows + k * 1 < a.cols * a.rows && a.cols - i - 1 + k * a.cols < |a.arr| {
      IndexInside(i, k, a.cols, a.rows);
      IndexInside(k, a.cols - i - 1, a.rows, a.cols);
    }
  }

  lemma {:induction false} RowCell(a: MatrixArea, i: nat, j: nat, now: bool, was: bool)
    requires Proper(a) && i < a.cols && j < a.cols * a.rows
    requires SliceFits(a.cols * a.rows, i * a.rows, 1, |a.arr|, a.cols - i - 1, a.cols, a.rows)
    requires now == if OnSlice(j, i * a.rows, a.rows, 1) then a.arr[a.cols - i - 1 + ((j - i * a.rows) / 1) * a.cols]
              else was
    ensures now == if i * a.rows <= j < i * a.rows + a.rows then Turned270(a).arr[j] else was
  {
    if i * a.rows <= j < i * a.rows + a.rows { Divided(i, j - i * a.rows, a.rows); }
  }

  /** The column that becomes row `i`. */
  method ColumnToRow(a: MatrixArea, newArr: array<bool>, i: nat)
    requires Proper(a) && i < a.cols && newArr.Length == a.cols * a.rows
    modifies newArr
    ensures forall j :: 0 <= j < newArr.Length ==>
              newArr[j] == if i * a.rows <= j < i * a.rows + a.rows then Turned270(a).arr[j] else old(newArr[j])
  {
    RowFits(a, i);
    AssignSlice(newArr, i * a.rows, 1, a.arr, a.cols - i - 1, a.cols, a.rows);
    forall j | 0 <= j < newArr.Length
      ensures newArr[j] == if i * a.rows <= j < i * a.rows + a.rows then Turned270(a).arr[j] else old(newArr[j])
    {
      RowCell(a, i, j, newArr[j], old(newArr[j]));
    }
  }

  method Rotate270(a: MatrixArea) returns (r: MatrixArea)
    requires Proper(a)
    ensures r == Turned270(a)
  {
    var newArr := new bool[a.cols * a.rows];
    ghost var want := Turned270(a).arr;
    var i := 0;
    while i < a.cols
      invariant 0 <= i <= a.cols
      invariant forall j :: 0 <= j < newArr.Length && j < i * a.rows ==> newArr[j] == want[j]
    {
      ColumnToRow(a, newArr, i);
      assert (i + 1) * a.rows == i * a.rows + a.rows;
      i := i + 1;
    }
    assert newArr[..] == want;
    r := MatrixArea(newArr[..], a.centerY, a.cols - a.centerX - 1, a.cols, a.rows);
  }

  // ---------------------------------------------- building and using areas

  /** The last cell marked as the centre. */
  ghost predicate CenterOf(vec: seq<nat>, n: nat, cols: nat, x: nat, y: nat)
    requires n <= |vec|
  {
    if exists k :: 0 <= k < n && vec[k] in {2, 3} then
      && 0 <= y * cols + x < n && vec[y * cols + x] in {2, 3}
      && forall k :: y * cols + x < k < n ==> vec[k] !in {2, 3}
    else x == 0 && y == 0
  }

  /** Reads a matrix of numbers: 1 and 3 are covered, 2 and 3 the centre. */
  method CreateArea(vec: seq<nat>, rows: nat) returns (area: MatrixArea)
    requires rows > 0 && vec != [] && |vec| % rows == 0
    ensures Proper(area) && area.rows == rows && area.cols == |vec| / rows && |area.arr| == |vec|
    ensures forall k :: 0 <= k < |vec| ==> (area.arr[k] <==> vec[k] in {1, 3})
    ensures CenterOf(vec, |vec|, area.cols, area.centerX, area.centerY)
  {
    var cols := |vec| / rows;
    assert rows * cols == |vec|;
    assert cols > 0;
    var arr, centerX, centerY := seq(|vec|, i => false), 0, 0;
    var x, y, k := 0, 0, 0;
    while k < |vec|
      invariant 0 <= k <= |vec| && 0 <= x < cols && 0 <= y && k == y * cols + x
      invariant CellsRead(arr, vec, k)
      invariant CenterOf(vec, k, cols, centerX, centerY) && 0 <= centerX < cols && 0 <= centerY < rows
    {
      var value := vec[k];
      RowBelow(x, y, rows, cols);
      NextRead(arr, vec, k);
      if value == 1 || value == 3 { arr := arr[y * cols + x := true]; }
      NextCenter(vec, k, cols, centerX, centerY, x, y);
      if value == 2 || value == 3 { centerX, centerY := x, y; }
      x := x + 1;
      if cols == x {
        x := 0;
        y := y + 1;
      }
      k := k + 1;
    }
    area := MatrixArea(arr, centerX, centerY, rows, cols);
  }

  /** The first `k` cells are as the numbers say, the others not covered. */
  ghost predicate CellsRead(arr: seq<bool>, vec: seq<nat>, k: nat) {
    && |arr| == |vec| && k <= |vec|
    && (forall j :: 0 <= j < k ==> (arr[j] <==> vec[j] in {1, 3}))
    && forall j :: k <= j < |vec| ==> !arr[j]
  }

  lemma {:induction false} NextRead(arr: seq<bool>, vec: seq<nat>, k: nat)
    requires k < |vec| && CellsRead(arr, vec, k)
    ensures CellsRead(if vec[k] in {1, 3} then arr[k := true] else arr, vec, k + 1)
  {
  }

  lemma {:induction false} NextCenter(vec: seq<nat>, k: nat, cols: nat, centerX: nat, centerY: nat, x: nat, y: nat)
    requires k < |vec| && k == y * cols + x && CenterOf(vec, k, cols, centerX, centerY)
    ensures if vec[k] in {2, 3} then CenterOf(vec, k + 1, cols, x, y) else CenterOf(vec, k + 1, cols, centerX, centerY)
  {
  }

  lemma {:induction false} RowBelow(x: int, y: int, rows: nat, cols: nat)
    requires 0 <= x < cols && 0 <= y && y * cols + x < rows * cols
    ensures y < rows && (y + 1) * cols == y * cols + cols
  {
    Scaled(rows, y, cols);
  }

  /** The tiles in reach of sight that the area covers around a target, row by row. */
  method GetList(area: MatrixArea, target: Position, isSightClear: Position -> bool) returns (tiles: seq<Position>)
    requires Proper(area)
    ensures forall p :: p in tiles <==> p.z == target.z && Has(area, p.x - target.x, p.y - target.y) && isSightClear(p)
    ensures InRowOrder(tiles)
  {
    tiles := [];
    var tmpPos := Position(target.x - area.centerX, target.y - area.centerY, target.z);
    var row := 0;
    while row < area.rows
      invariant 0 <= row <= area.rows
      invariant tmpPos == Position(target.x - area.centerX, target.y - area.centerY + row, target.z)
      invariant Listed(area, target, isSightClear, tiles, row, 0) && InRowOrder(tiles)
    {
      var col := 0;
      while col < area.cols
        invariant 0 <= col <= area.cols
        invariant tmpPos == Position(target.x - area.centerX + col, target.y - area.centerY + row, target.z)
        invariant Listed(area, target, isSightClear, tiles, row, col) && InRowOrder(tiles)
      {
        NextCell(area, target, isSightClear, tiles, row, col, tmpPos);
        if Cell(area, row, col) && isSightClear(tmpPos) {
          tiles := tiles + [tmpPos];
        }
        tmpPos := tmpPos.(x := tmpPos.x + 1);
        col := col + 1;
      }
      tmpPos := tmpPos.(x := tmpPos.x - area.cols, y := tmpPos.y + 1);
      row := row + 1;
    }
  }

  predicate InRowOrder(tiles: seq<Position>) {
    forall i, j :: 0 <= i < j < |tiles| ==> Before(tiles[i], tiles[j])
  }

  /** A cell is covered or not, and its tile is the next one. */
  lemma {:induction false} NextCell(area: MatrixArea, target: Position, isSightClear: Position -> bool,
                                    tiles: seq<Position>, row: int, col: int, p: Position)
    requires Proper(area) && 0 <= row < area.rows && 0 <= col < area.cols
    requires Listed(area, target, isSightClear, tiles, row, col) && InRowOrder(tiles)
    requires p == Position(target.x - area.centerX + col, target.y - area.centerY + row, target.z)
    ensures var tiles' := if Cell(area, row, col) && isSightClear(p) then tiles + [p] else tiles;
            Listed(area, target, isSightClear, tiles', row, col + 1) && InRowOrder(tiles')
  {
    assert forall i :: 0 <= i < |tiles| ==> tiles[i] in tiles;
  }

  predicate Before(p: Position, q: Position) {
    p.y < q.y || (p.y == q.y && p.x < q.x)
  }

  /** The tiles of all cells before `(row, col)` are listed. */
  ghost predicate Listed(area: MatrixArea, target: Position, isSightClear: Position -> bool, tiles: seq<Position>,
                         row: int, col: int)
    requires Proper(area)
  {
    forall p :: p in tiles <==>
      && p.z == target.z && Has(area, p.x - target.x, p.y - target.y) && isSightClear(p)
      && Before(p, Position(target.x - area.centerX + col, target.y - area.centerY + row, target.z))
  }

  datatype Direction = North | East | South | West

  class AreaCombat {
    var areas: map<Direction, MatrixArea>

    constructor ()
      ensures areas == map[]
    {
      areas := map[];
    }

    /** One matrix, drawn towards the north, gives the areas of all four directions. */
    method SetupArea(vec: seq<nat>, rows: nat) returns (ghost north: MatrixArea)
      requires rows > 0 && vec != [] && |vec| % rows == 0
      modifies this
      ensures Proper(north) && |north.arr| == |vec|
      ensures (forall k :: 0 <= k < |vec| ==> (north.arr[k] <==> vec[k] in {1, 3}))
      ensures CenterOf(vec, |vec|, north.cols, north.centerX, north.centerY)
      ensures Facing(areas, north)
    {
      var area := CreateArea(vec, rows);
      north := area;
      var east := Rotate90(area);
      var south := Rotate180(area);
      var west := Rotate270(area);
      Cells90(area);
      Cells180(area);
      Cells270(area);
      forall dx, dy ensures OffsetsFace(east, south, west, area, dx, dy) { TurnsOffsets(area, dx, dy); }
      areas := areas[East := east][South := south][West := west][North := area];
    }
  }

  ghost predicate OffsetsFace(east: MatrixArea, south: MatrixArea, west: MatrixArea, north: MatrixArea, dx: int,
                              dy: int)
    requires Proper(north) && Proper(east) && Proper(south) && Proper(west)
  {
    && (Has(east, -dy, dx) <==> Has(north, dx, dy))
    && (Has(south, -dx, -dy) <==> Has(north, dx, dy))
    && (Has(west, dy, -dx) <==> Has(north, dx, dy))
  }

  /** The four areas cover the same tiles, seen from the caster towards each direction. */
  ghost predicate Facing(areas: map<Direction, MatrixArea>, north: MatrixArea) {
    && North in areas && areas[North] == north && East in areas && South in areas && West in areas
    && Proper(north) && Proper(areas[East]) && Proper(areas[South]) && Proper(areas[West])
    && forall dx, dy :: OffsetsFace(areas[East], areas[South], areas[West], north, dx, dy)
  }
}
