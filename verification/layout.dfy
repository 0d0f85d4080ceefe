/**
 Row-major layout of per-cell attribute groups.

 Every buffer the terrain builder fills (positions, texture coordinates,
 heights, normals and the triangle index list) is produced by two nested
 loops, `z` outer and `x` inner, that append a fixed-size group of values
 for each grid cell. `Rows(cell, cols, rows)` is that buffer, defined once;
 the lemmas below give its length and the offset at which cell `(x, z)`
 lands.
 */
module Layout {

  /** Every cell of the grid yields exactly `width` values. */
  ghost predicate Uniform<T>(cell: (nat, nat) -> seq<T>, cols: nat, rows: nat, width: nat) {
    forall x: nat, z: nat :: x < cols && z < rows ==> |cell(x, z)| == width
  }

  /** The groups of cells `(0, z)` .. `(x - 1, z)`, in that order. */
  function Row<T>(cell: (nat, nat) -> seq<T>, z: nat, x: nat): seq<T>
    decreases x
  {
    if x == 0 then [] else Row(cell, z, x - 1) + cell(x - 1, z)
  }

  /** Rows `0` .. `rows - 1` of `cols` cells each, row after row. */
  function Rows<T>(cell: (nat, nat) -> seq<T>, cols: nat, rows: nat): seq<T>
    decreases rows
  {
    if rows == 0 then [] else Rows(cell, cols, rows - 1) + Row(cell, rows - 1, cols)
  }

  /** Appending row `rows` to the first `rows` rows. */
  lemma RowsSnoc<T>(cell: (nat, nat) -> seq<T>, cols: nat, rows: nat)
    ensures Rows(cell, cols, rows + 1) == Rows(cell, cols, rows) + Row(cell, rows, cols)
  {
  }

  /** Appending cell `(x, z)` to the first `x` cells of row `z`. */
  lemma RowSnoc<T>(cell: (nat, nat) -> seq<T>, z: nat, x: nat)
    ensures Row(cell, z, x + 1) == Row(cell, z, x) + cell(x, z)
  {
  }

  /** Offset of the first value of cell `(x, z)` in a grid `cols` cells wide. */
  function CellOffset(cols: nat, width: nat, x: nat, z: nat): nat {
    (z * cols + x) * width
  }

  lemma MulLeMono(a: nat, b: nat, k: nat)
    requires a <= b
    ensures a * k <= b * k
  {
  }

  lemma Distrib(a: nat, b: nat, k: nat)
    ensures (a + b) * k == a * k + b * k
  {
  }

  lemma MulAssoc(a: nat, b: nat, c: nat)
    ensures a * b * c == a * (b * c)
  {
  }

  lemma MulSucc(a: nat, k: nat)
    ensures (a + 1) * k == a * k + k
  {
  }

  lemma {:induction false} RowLength<T>(cell: (nat, nat) -> seq<T>, z: nat, x: nat, width: nat)
    requires Uniform(cell, x, z + 1, width)
    ensures |Row(cell, z, x)| == x * width
    decreases x
  {
    if x > 0 {
      RowLength(cell, z, x - 1, width);
    }
  }

  /** A grid of uniform cells holds `cols * rows` groups of `width` values. */
  lemma {:induction false} RowsLength<T>(cell: (nat, nat) -> seq<T>, cols: nat, rows: nat, width: nat)
    requires Uniform(cell, cols, rows, width)
    ensures |Rows(cell, cols, rows)| == rows * cols * width
    decreases rows
  {
    if rows > 0 {
      RowsLength(cell, cols, rows - 1, width);
      RowLength(cell, rows - 1, cols, width);
      MulSucc(rows - 1, cols);
      Distrib((rows - 1) * cols, cols, width);
    }
  }

  /** Value `i` of cell `(x, z)` sits at `x * width + i` of its row. */
  lemma {:induction false} RowAt<T>(cell: (nat, nat) -> seq<T>, z: nat, cols: nat, width: nat, x: nat, i: nat)
    requires Uniform(cell, cols, z + 1, width)
    requires x < cols && i < width
    ensures x * width + i < |Row(cell, z, cols)|
    ensures Row(cell, z, cols)[x * width + i] == cell(x, z)[i]
    decreases cols
  {
    RowLength(cell, z, cols - 1, width);
    if x < cols - 1 {
      RowAt(cell, z, cols - 1, width, x, i);
    }
  }

  /** Value `off` of row `z` sits at `z * (cols * width) + off` of the grid: each row before it holds `cols * width` values. */
  lemma {:induction false} RowsBlock<T>(cell: (nat, nat) -> seq<T>, cols: nat, rows: nat, width: nat, z: nat, off: nat)
    requires Uniform(cell, cols, rows, width)
    requires z < rows && off < cols * width
    ensures |Row(cell, z, cols)| == cols * width
    ensures z * (cols * width) + off < |Rows(cell, cols, rows)|
    ensures Rows(cell, cols, rows)[z * (cols * width) + off] == Row(cell, z, cols)[off]
    decreases rows
  {
    var last, w := rows - 1, cols * width;
    RowLength(cell, z, cols, width);
    RowsLength(cell, cols, last, width);
    RowLength(cell, last, cols, width);
    MulAssoc(last, cols, width);
    RowsSnoc(cell, cols, last);
    if z < last {
      RowsBlock(cell, cols, last, width, z, off);
    }
  }

  /** Offsets within the grid: value `i` of cell `(x, z)` comes after the `z` full rows before it. */
  lemma OffsetSplit(cols: nat, width: nat, x: nat, z: nat, i: nat)
    ensures CellOffset(cols, width, x, z) + i == z * (cols * width) + (x * width + i)
  {
    Distrib(z * cols, x, width);
  }

  /** Value `i` of cell `(x, z)` sits at `CellOffset(cols, width, x, z) + i` of the grid. */
  lemma RowsAt<T>(cell: (nat, nat) -> seq<T>, cols: nat, rows: nat, width: nat, x: nat, z: nat, i: nat)
    requires Uniform(cell, cols, rows, width)
    requires x < cols && z < rows && i < width
    ensures CellOffset(cols, width, x, z) + i < |Rows(cell, cols, rows)|
    ensures Rows(cell, cols, rows)[CellOffset(cols, width, x, z) + i] == cell(x, z)[i]
  {
    MulLeMono(x + 1, cols, width);
    MulSucc(x, width);
    RowsBlock(cell, cols, rows, width, z, x * width + i);
    RowAt(cell, z, cols, width, x, i);
    OffsetSplit(cols, width, x, z, i);
  }

  /** Cell `(x, z)` occupies the `width` values starting at `CellOffset(cols, width, x, z)`. */
  lemma RowsCell<T>(cell: (nat, nat) -> seq<T>, cols: nat, rows: nat, width: nat, x: nat, z: nat)
    requires Uniform(cell, cols, rows, width)
    requires x < cols && z < rows && 0 < width
    ensures CellOffset(cols, width, x, z) + width <= |Rows(cell, cols, rows)|
    ensures Rows(cell, cols, rows)[CellOffset(cols, width, x, z)..CellOffset(cols, width, x, z) + width] == cell(x, z)
  {
    var start := CellOffset(cols, width, x, z);
    var r := Rows(cell, cols, rows);
    RowsAt(cell, cols, rows, width, x, z, width - 1);
    forall i | 0 <= i < width
      ensures r[start + i] == cell(x, z)[i]
    {
      RowsAt(cell, cols, rows, width, x, z, i);
    }
  }

  /** Every value of the grid is a value of one of its cells. */
  lemma {:induction false} RowsMembers<T>(cell: (nat, nat) -> seq<T>, cols: nat, rows: nat, ok: T -> bool)
    requires forall x: nat, z: nat :: x < cols && z < rows ==> forall e <- cell(x, z) :: ok(e)
    ensures forall e <- Rows(cell, cols, rows) :: ok(e)
    decreases rows
  {
    if rows > 0 {
      var before, last := Rows(cell, cols, rows - 1), Row(cell, rows - 1, cols);
      RowsMembers(cell, cols, rows - 1, ok);
      RowMembers(cell, rows - 1, cols, ok);
      RowsSnoc(cell, cols, rows - 1);
      ConcatMembers(before, last, ok);
    }
  }

  lemma {:induction false} RowMembers<T>(cell: (nat, nat) -> seq<T>, z: nat, x: nat, ok: T -> bool)
    requires forall j: nat :: j < x ==> forall e <- cell(j, z) :: ok(e)
    ensures forall e <- Row(cell, z, x) :: ok(e)
    decreases x
  {
    if x > 0 {
      RowMembers(cell, z, x - 1, ok);
      RowSnoc(cell, z, x - 1);
      ConcatMembers(Row(cell, z, x - 1), cell(x - 1, z), ok);
    }
  }

  lemma ConcatMembers<T>(a: seq<T>, b: seq<T>, ok: T -> bool)
    requires forall e <- a :: ok(e)
    requires forall e <- b :: ok(e)
    ensures forall e <- a + b :: ok(e)
  {
  }
}
