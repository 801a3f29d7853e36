/** The matrix demo of examples/matrix_multiply.c: rows are divided among tasks, the tasks run in any
    interleaving, and the product is the sequential one. Elements are of any type, with any addition
    and multiplication: no law of arithmetic is needed, because every cell is summed in the same
    order. */
module Matrices {
  import opened Arithmetic
  import opened Totals

  datatype Ops<!T> = Ops(zero: T, add: (T, T) -> T, mul: (T, T) -> T)

  /** The index that matrix_get and matrix_set use. */
  function Index(row: nat, col: nat, cols: nat): nat {
    row * cols + col
  }

  /** Flat row-major storage, as matrix_create lays it out. */
  predicate Fits<T>(data: seq<T>, rows: nat, cols: nat) {
    |data| == Index(rows, 0, cols)
  }

  lemma IndexInside(row: nat, col: nat, rows: nat, cols: nat)
    requires row < rows && col < cols
    ensures Index(row, col, cols) < Index(rows, 0, cols)
  {
    MulStrict(row, rows, cols);
  }

  /** Row-major order: the first cell is at the start, a row is contiguous, and the next row follows. */
  lemma RowMajor(row: nat, col: nat, cols: nat)
    ensures Index(0, 0, cols) == 0
    ensures Index(row, col + 1, cols) == Index(row, col, cols) + 1
    ensures Index(row + 1, 0, cols) == Index(row, cols, cols) == Index(row, 0, cols) + cols
  {
    assert (row + 1) * cols == row * cols + cols;
  }

  /** The cell comes before the other in reading order: row by row, each from the left. */
  predicate Precedes(row: nat, col: nat, row': nat, col': nat) {
    row < row' || (row == row' && col < col')
  }

  /** The indices are in reading order; so different cells have different indices. */
  lemma {:induction false} IndexApart(row: nat, col: nat, row': nat, col': nat, cols: nat)
    requires col < cols && col' < cols
    ensures Index(row, col, cols) < Index(row', col', cols) <==> Precedes(row, col, row', col')
    ensures Index(row, col, cols) == Index(row', col', cols) <==> row == row' && col == col'
  {
    MulStrict(row, row', cols);
    MulStrict(row', row, cols);
  }

  /** Every index is that of a cell. */
  lemma CellOf(x: nat, rows: nat, cols: nat) returns (row: nat, col: nat)
    requires x < Index(rows, 0, cols)
    ensures row < rows && col < cols && x == Index(row, col, cols)
  {
    MulMonotone(0, rows, cols);
    assert cols > 0;
    row, col := x / cols, x % cols;
    QuotientRemainder(x, cols);
    MulMonotone(rows, row, cols);
  }

  /** The operands of a product, rows x inner and inner x cols. */
  datatype Operands<!T> = Operands(ops: Ops<T>, a: seq<T>, b: seq<T>, rows: nat, inner: nat, cols: nat)

  ghost predicate WellSized<T>(m: Operands<T>) {
    && Fits(m.a, m.rows, m.inner) && Fits(m.b, m.inner, m.cols)
  }

  /** The first k terms of cell (i, j), added from the left. */
  function Dot<T>(m: Operands<T>, i: nat, j: nat, k: nat): T
    requires WellSized(m) && i < m.rows && j < m.cols && k <= m.inner
  {
    if k == 0 then m.ops.zero else m.ops.add(Dot(m, i, j, k - 1), Term(m, i, j, k - 1))
  }

  function Term<T>(m: Operands<T>, i: nat, j: nat, k: nat): T
    requires WellSized(m) && i < m.rows && j < m.cols && k < m.inner
  {
    IndexInside(i, k, m.rows, m.inner);
    IndexInside(k, j, m.inner, m.cols);
    m.ops.mul(m.a[Index(i, k, m.inner)], m.b[Index(k, j, m.cols)])
  }

  /** Cell (i, j) of c holds its value in the product. */
  ghost predicate Computed<T>(m: Operands<T>, c: seq<T>, i: nat, j: nat)
    requires WellSized(m) && Fits(c, m.rows, m.cols) && i < m.rows && j < m.cols
  {
    IndexInside(i, j, m.rows, m.cols);
    c[Index(i, j, m.cols)] == Dot(m, i, j, m.inner)
  }

  ghost predicate IsProduct<T>(m: Operands<T>, c: seq<T>)
    requires WellSized(m)
  {
    Fits(c, m.rows, m.cols) && forall i, j :: 0 <= i < m.rows && 0 <= j < m.cols ==> Computed(m, c, i, j)
  }

  /** The cells determine the flat storage. */
  lemma ProductUnique<T>(m: Operands<T>, c: seq<T>, d: seq<T>)
    requires WellSized(m) && IsProduct(m, c) && IsProduct(m, d)
    ensures c == d
  {
    forall x | 0 <= x < |c|
      ensures c[x] == d[x]
    {
      var i, j := CellOf(x, m.rows, m.cols);
      assert Computed(m, c, i, j) && Computed(m, d, i, j);
    }
  }

  // ---------------------------------------------------------------- the product by rows and columns

  /** Column j of a matrix: place j of each of its rows, which lie one behind the other. */
  function Column<T>(data: seq<T>, j: nat, cols: nat): seq<T>
    requires j < cols
    decreases |data|
  {
    if |data| < cols then [] else [data[j]] + Column(data[cols..], j, cols)
  }

  /** A row times a column, added from the left. */
  function Pairing<T>(ops: Ops<T>, row: seq<T>, column: seq<T>): T
    requires |row| == |column|
  {
    var k := |row| - 1;
    if k < 0 then ops.zero
    else ops.add(Pairing(ops, row[..k], column[..k]), ops.mul(row[k], column[k]))
  }

  lemma {:induction false} ColumnAt<T>(data: seq<T>, j: nat, cols: nat, inner: nat)
    requires j < cols && Fits(data, inner, cols)
    ensures |Column(data, j, cols)| == inner
    ensures forall k :: 0 <= k < inner ==>
              Index(k, j, cols) < |data| && Column(data, j, cols)[k] == data[Index(k, j, cols)]
    decreases inner
  {
    if inner > 0 {
      RowMajor(inner - 1, 0, cols);
      ColumnAt(data[cols..], j, cols, inner - 1);
      forall k | 0 <= k < inner
        ensures Index(k, j, cols) < |data| && Column(data, j, cols)[k] == data[Index(k, j, cols)]
      {
        if k > 0 {
          assert Index(k, j, cols) == cols + Index(k - 1, j, cols);
        }
      }
    }
  }

  /** Row i of the left operand. */
  function RowOf<T>(data: seq<T>, i: nat, cols: nat): seq<T>
    requires i * cols + cols <= |data|
  {
    data[i * cols..i * cols + cols]
  }

  lemma {:induction false} PairingIsDot<T>(m: Operands<T>, row: seq<T>, i: nat, j: nat, k: nat)
    requires WellSized(m) && i < m.rows && j < m.cols && k <= m.inner
    requires |row| == m.inner && forall x :: 0 <= x < m.inner ==>
               Index(i, x, m.inner) < |m.a| && row[x] == m.a[Index(i, x, m.inner)]
    ensures |Column(m.b, j, m.cols)| == m.inner
    ensures Pairing(m.ops, row[..k], Column(m.b, j, m.cols)[..k]) == Dot(m, i, j, k)
    decreases k
  {
    ColumnAt(m.b, j, m.cols, m.inner);
    if k > 0 {
      PairingIsDot(m, row, i, j, k - 1);
      var column := Column(m.b, j, m.cols);
      assert row[..k][..k - 1] == row[..k - 1] && column[..k][..k - 1] == column[..k - 1];
    }
  }

  /** Cell (i, j) of the product is row i of the left operand, cut out of its storage, times column j of
      the right one. */
  lemma {:induction false} CellIsRowTimesColumn<T>(m: Operands<T>, i: nat, j: nat)
    requires WellSized(m) && i < m.rows && j < m.cols
    ensures i * m.inner + m.inner <= |m.a| && |Column(m.b, j, m.cols)| == m.inner
    ensures Dot(m, i, j, m.inner) == Pairing(m.ops, RowOf(m.a, i, m.inner), Column(m.b, j, m.cols))
  {
    MulStrict(i, m.rows, m.inner);
    var row, column := RowOf(m.a, i, m.inner), Column(m.b, j, m.cols);
    PairingIsDot(m, row, i, j, m.inner);
    assert row[..m.inner] == row && column[..m.inner] == column;
  }

  /** The products of one row with all columns, from the left. */
  function RowTimes<T>(ops: Ops<T>, row: seq<T>, b: seq<T>, cols: nat): seq<T>
    requires Fits(b, |row|, cols)
  {
    seq(cols, j requires 0 <= j < cols => ColumnAt(b, j, cols, |row|); Pairing(ops, row, Column(b, j, cols)))
  }

  /** The rows of the product, one behind the other. */
  function Product<T>(ops: Ops<T>, a: seq<T>, b: seq<T>, rows: nat, inner: nat, cols: nat): seq<T>
    requires Fits(a, rows, inner) && Fits(b, inner, cols)
  {
    if rows == 0 then []
    else
      RowMajor(rows - 1, 0, inner);
      RowTimes(ops, a[..inner], b, cols) + Product(ops, a[inner..], b, rows - 1, inner, cols)
  }

  /** The cells of that product, found by their indices. */
  lemma {:induction false} ProductCell<T>(m: Operands<T>)
    requires WellSized(m)
    ensures IsProduct(m, Product(m.ops, m.a, m.b, m.rows, m.inner, m.cols))
    decreases m.rows
  {
    var c := Product(m.ops, m.a, m.b, m.rows, m.inner, m.cols);
    if m.rows > 0 {
      RowMajor(m.rows - 1, 0, m.inner);
      RowMajor(m.rows - 1, 0, m.cols);
      var rest := m.(a := m.a[m.inner..], rows := m.rows - 1);
      ProductCell(rest);
      forall i, j | 0 <= i < m.rows && 0 <= j < m.cols
        ensures Computed(m, c, i, j)
      {
        IndexInside(i, j, m.rows, m.cols);
        CellIsRowTimesColumn(m, i, j);
        if i > 0 {
          ShiftedCell(m, rest, i, j);
          assert Computed(rest, c[m.cols..], i - 1, j);
          assert Index(i, j, m.cols) == m.cols + Index(i - 1, j, m.cols);
        }
      }
    }
  }

  /** Without the first row, each row is found one row earlier. */
  lemma RowEarlier<T>(data: seq<T>, i: nat, cols: nat)
    requires i > 0 && i * cols + cols <= |data|
    ensures cols <= |data| && (i - 1) * cols + cols <= |data[cols..]|
    ensures RowOf(data[cols..], i - 1, cols) == RowOf(data, i, cols)
  {
    var start := (i - 1) * cols;
    assert i * cols == start + cols;
    assert data[cols..][start..start + cols] == data[start + cols..start + cols + cols];
  }

  /** And so is each cell. */
  lemma ShiftedCell<T>(m: Operands<T>, rest: Operands<T>, i: nat, j: nat)
    requires WellSized(m) && WellSized(rest) && 0 < i < m.rows && j < m.cols && m.inner <= |m.a|
    requires rest == m.(a := m.a[m.inner..], rows := m.rows - 1)
    ensures Dot(rest, i - 1, j, m.inner) == Dot(m, i, j, m.inner)
  {
    CellIsRowTimesColumn(m, i, j);
    CellIsRowTimesColumn(rest, i - 1, j);
    RowEarlier(m.a, i, m.inner);
  }

  /** So c holds the product, cell by cell at its indices, if and only if it is the rows of the left
      operand times the columns of the right one, written one behind the other. */
  lemma {:induction false} ProductByRowsAndColumns<T>(m: Operands<T>, c: seq<T>)
    requires WellSized(m)
    ensures IsProduct(m, c) <==> c == Product(m.ops, m.a, m.b, m.rows, m.inner, m.cols)
  {
    ProductCell(m);
    if IsProduct(m, c) {
      ProductUnique(m, c, Product(m.ops, m.a, m.b, m.rows, m.inner, m.cols));
    }
  }

  // ---------------------------------------------------------------- the row partition

  /** start_row and end_row of a row_task_t. */
  datatype Rows = Rows(start: nat, end: nat)

  predicate InRows(r: Rows, row: nat) {
    r.start <= row < r.end
  }

  /** The rows of task t out of n. */
  function RowsOf(rows: nat, n: nat, t: nat): Rows
    requires t < n
  {
    Rows(t * (rows / n), if t == n - 1 then rows else (t + 1) * (rows / n))
  }

  ghost predicate Assigned(tasks: seq<Rows>, row: nat) {
    exists t :: 0 <= t < |tasks| && InRows(tasks[t], row)
  }

  /** Every row belongs to exactly one task, and no task goes beyond the last row. */
  ghost predicate Partitioned(tasks: seq<Rows>, rows: nat) {
    && (forall t :: 0 <= t < |tasks| ==> tasks[t].end <= rows)
    && (forall t, u, row :: 0 <= t < u < |tasks| && InRows(tasks[t], row) ==> !InRows(tasks[u], row))
    && (forall row :: 0 <= row < rows ==> Assigned(tasks, row))
  }

  /** The tasks take the rows in order, one behind the other; all but the last take equally many, and the
      last at least as many, but not as much more as there are tasks. */
  ghost predicate Even(tasks: seq<Rows>, rows: nat) {
    var n := |tasks|;
    && n > 0 && tasks[0].start == 0 && tasks[n - 1].end == rows
    && (forall t :: 0 <= t < n - 1 ==> tasks[t].start <= tasks[t].end == tasks[t + 1].start)
    && (forall t :: 0 <= t < n - 1 ==> Size(tasks[t]) == Size(tasks[0]))
    && Size(tasks[0]) <= Size(tasks[n - 1]) < Size(tasks[0]) + n
  }

  function Size(r: Rows): int {
    r.end - r.start
  }

  lemma {:induction false} RowsEven(rows: nat, n: nat, tasks: seq<Rows>)
    requires n > 0 && |tasks| == n && forall t :: 0 <= t < n ==> tasks[t] == RowsOf(rows, n, t)
    ensures Even(tasks, rows)
  {
    var p := rows / n;
    QuotientRemainder(rows, n);
    assert n * p == p * n == (n - 1) * p + p;
    forall t | 0 <= t < n - 1
      ensures tasks[t].start <= tasks[t].end == tasks[t + 1].start && Size(tasks[t]) == p
    {
      assert (t + 1) * p == t * p + p;
    }
  }

  lemma RowsInside(rows: nat, n: nat, t: nat)
    requires t < n
    ensures RowsOf(rows, n, t).end <= rows
  {
    MulStrict(t + 1, n, rows / n);
    assert rows == (rows / n) * n + rows % n;
    assert n * (rows / n) == (rows / n) * n;
  }

  lemma RowsOrdered(rows: nat, n: nat, t: nat, u: nat)
    requires t < u < n
    ensures RowsOf(rows, n, t).end <= RowsOf(rows, n, u).start
  {
    MulStrict(t + 1, u, rows / n);
  }

  /** The block of p rows, out of m such blocks, that has the row. */
  lemma {:induction false} RowBlock(p: nat, m: nat, row: nat) returns (t: nat)
    requires row < m * p
    ensures t < m && t * p <= row < (t + 1) * p
  {
    if m == 0 {
      assert false;
    } else if (m - 1) * p <= row {
      t := m - 1;
    } else {
      t := RowBlock(p, m - 1, row);
    }
  }

  /** The task that has the row. */
  lemma RowsCover(rows: nat, n: nat, row: nat) returns (t: nat)
    requires n > 0 && row < rows
    ensures t < n && InRows(RowsOf(rows, n, t), row)
  {
    if (n - 1) * (rows / n) <= row {
      t := n - 1;
    } else {
      t := RowBlock(rows / n, n - 1, row);
    }
  }

  /** For any number of rows and tasks, more tasks than rows included. */
  lemma {:induction false} RowsPartition(rows: nat, n: nat, tasks: seq<Rows>)
    requires n > 0 && |tasks| == n && forall t :: 0 <= t < n ==> tasks[t] == RowsOf(rows, n, t)
    ensures Partitioned(tasks, rows)
  {
    forall t | 0 <= t < n
      ensures tasks[t].end <= rows
    {
      RowsInside(rows, n, t);
    }
    forall t, u, row | 0 <= t < u < n && InRows(tasks[t], row)
      ensures !InRows(tasks[u], row)
    {
      RowsOrdered(rows, n, t, u);
    }
    forall row | 0 <= row < rows
      ensures Assigned(tasks, row)
    {
      var t := RowsCover(rows, n, row);
      assert InRows(tasks[t], row);
    }
  }

  // ---------------------------------------------------------------- tasks in any interleaving

  /** Where a row task stands in its three loops. */
  datatype Cursor<T> = Cursor(i: nat, j: nat, k: nat, sum: T)

  datatype State<T> = State(c: seq<T>, tasks: seq<Rows>, cursors: seq<Cursor<T>>)

  function Begun<T>(m: Operands<T>, c: seq<T>, tasks: seq<Rows>): State<T> {
    State(c, tasks, seq(|tasks|, t requires 0 <= t < |tasks| => Cursor(tasks[t].start, 0, 0, m.ops.zero)))
  }

  predicate Done<T>(s: State<T>, t: nat)
    requires t < |s.cursors| == |s.tasks|
  {
    s.cursors[t].i >= s.tasks[t].end
  }

  /** Task t exists, has a step left, and would take it inside the result. */
  predicate CanStep<T>(m: Operands<T>, s: State<T>, t: nat) {
    && |s.cursors| == |s.tasks| && t < |s.tasks| && !Done(s, t)
    && Fits(s.c, m.rows, m.cols) && s.cursors[t].i < m.rows
  }

  /** One task takes one step: a multiply-add, the write of a cell, or the move to the next row. */
  ghost function Step<T>(m: Operands<T>, s: State<T>, t: nat): (r: State<T>)
    requires WellSized(m) && CanStep(m, s, t)
    ensures |r.c| == |s.c| && r.tasks == s.tasks && |r.cursors| == |s.cursors|
    ensures forall u :: 0 <= u < |s.cursors| && u != t ==> r.cursors[u] == s.cursors[u]
  {
    var x := s.cursors[t];
    if x.j >= m.cols then
      s.(cursors := s.cursors[t := Cursor(x.i + 1, 0, 0, m.ops.zero)])
    else if x.k < m.inner then
      s.(cursors := s.cursors[t := x.(k := x.k + 1, sum := m.ops.add(x.sum, Term(m, x.i, x.j, x.k)))])
    else
      IndexInside(x.i, x.j, m.rows, m.cols);
      s.(c := s.c[Index(x.i, x.j, m.cols) := x.sum],
         cursors := s.cursors[t := Cursor(x.i, x.j + 1, 0, m.ops.zero)])
  }

  /** Every task's partial sum is right, and so is every cell it has passed. */
  ghost predicate Sound<T>(m: Operands<T>, s: State<T>)
    requires WellSized(m)
  {
    && Fits(s.c, m.rows, m.cols) && Partitioned(s.tasks, m.rows) && |s.cursors| == |s.tasks|
    && forall t :: 0 <= t < |s.cursors| ==> CursorSound(m, s.c, s.cursors[t], s.tasks[t])
  }

  ghost predicate CursorSound<T>(m: Operands<T>, c: seq<T>, x: Cursor<T>, r: Rows)
    requires WellSized(m) && Fits(c, m.rows, m.cols)
  {
    && r.start <= x.i && x.j <= m.cols && x.k <= m.inner
    && (x.i < m.rows && x.j < m.cols ==> x.sum == Dot(m, x.i, x.j, x.k))
    && (forall i, j :: 0 <= i < m.rows && 0 <= j < m.cols && InRows(r, i) && Passed(x, i, j) ==> Computed(m, c, i, j))
  }

  predicate Passed<T>(x: Cursor<T>, i: nat, j: nat) {
    i < x.i || (i == x.i && j < x.j)
  }

  /** A task never has to step outside the result: in a sound state each task that is not done can
      take its step. */
  lemma SoundTasksCanStep<T>(m: Operands<T>, s: State<T>, t: nat)
    requires WellSized(m) && Sound(m, s)
    ensures CanStep(m, s, t) <==> t < |s.tasks| && !Done(s, t)
  {
  }

  /** Writing cell (i, j) leaves the other cells as they are. */
  lemma WriteFrame<T>(m: Operands<T>, c: seq<T>, i: nat, j: nat, v: T, i': nat, j': nat)
    requires WellSized(m) && Fits(c, m.rows, m.cols) && i < m.rows && j < m.cols
    requires i' < m.rows && j' < m.cols
    ensures Index(i, j, m.cols) < |c|
    ensures (i != i' || j != j') && Computed(m, c, i', j') ==> Computed(m, c[Index(i, j, m.cols) := v], i', j')
    ensures v == Dot(m, i, j, m.inner) ==> Computed(m, c[Index(i, j, m.cols) := v], i, j)
  {
    IndexInside(i, j, m.rows, m.cols);
    IndexInside(i', j', m.rows, m.cols);
    IndexApart(i, j, i', j', m.cols);
  }

  /** A step disturbs no other task: it writes only in its own rows. */
  lemma OthersUndisturbed<T>(m: Operands<T>, s: State<T>, t: nat, u: nat)
    requires WellSized(m) && Sound(m, s) && CanStep(m, s, t) && u < |s.tasks| && u != t
    ensures CursorSound(m, Step(m, s, t).c, s.cursors[u], s.tasks[u])
  {
    var x, y := s.cursors[t], s.cursors[u];
    assert InRows(s.tasks[t], x.i);
    forall i, j | 0 <= i < m.rows && 0 <= j < m.cols && InRows(s.tasks[u], i) && Passed(y, i, j)
      ensures Computed(m, Step(m, s, t).c, i, j)
    {
      assert Computed(m, s.c, i, j);
      if x.j < m.cols {
        WriteFrame(m, s.c, x.i, x.j, x.sum, i, j);
      }
    }
  }

  lemma OwnCursorSound<T>(m: Operands<T>, s: State<T>, t: nat)
    requires WellSized(m) && Sound(m, s) && CanStep(m, s, t)
    ensures CursorSound(m, Step(m, s, t).c, Step(m, s, t).cursors[t], s.tasks[t])
  {
    var x, x', c' := s.cursors[t], Step(m, s, t).cursors[t], Step(m, s, t).c;
    forall i, j | 0 <= i < m.rows && 0 <= j < m.cols && InRows(s.tasks[t], i) && Passed(x', i, j)
      ensures Computed(m, c', i, j)
    {
      assert Passed(x, i, j) ==> Computed(m, s.c, i, j);
      if x.j < m.cols {
        WriteFrame(m, s.c, x.i, x.j, x.sum, i, j);
      }
    }
  }

  lemma {:induction false} StepKeepsSound<T>(m: Operands<T>, s: State<T>, t: nat)
    requires WellSized(m) && Sound(m, s) && CanStep(m, s, t)
    ensures Sound(m, Step(m, s, t)) && Step(m, s, t).tasks == s.tasks
    ensures forall u :: 0 <= u < |s.tasks| ==> CanStep(m, Step(m, s, t), u) || Done(Step(m, s, t), u)
  {
    OwnCursorSound(m, s, t);
    forall u | 0 <= u < |s.tasks| && u != t
      ensures CursorSound(m, Step(m, s, t).c, Step(m, s, t).cursors[u], s.tasks[u])
    {
      OthersUndisturbed(m, s, t, u);
    }
  }

  /** The tasks take their steps in the given order. */
  ghost predicate Leads<T>(m: Operands<T>, s: State<T>, order: seq<nat>, s': State<T>)
    requires WellSized(m)
    decreases |order|
  {
    if order == [] then s == s'
    else CanStep(m, s, order[0]) && Leads(m, Step(m, s, order[0]), order[1..], s')
  }

  lemma {:induction false} RunKeepsSound<T>(m: Operands<T>, s: State<T>, order: seq<nat>, s': State<T>)
    requires WellSized(m) && Sound(m, s) && Leads(m, s, order, s')
    ensures Sound(m, s') && s'.tasks == s.tasks
    decreases |order|
  {
    if order != [] {
      StepKeepsSound(m, s, order[0]);
      RunKeepsSound(m, Step(m, s, order[0]), order[1..], s');
    }
  }

  ghost predicate AllDone<T>(s: State<T>)
    requires |s.cursors| == |s.tasks|
  {
    forall t :: 0 <= t < |s.cursors| ==> Done(s, t)
  }

  /** Whatever the interleaving, and whatever c held before, when all row tasks are done c is the
      product. */
  lemma {:induction false} AnyInterleavingMultiplies<T>(m: Operands<T>, c: seq<T>, tasks: seq<Rows>,
                                                         order: seq<nat>, s: State<T>)
    requires WellSized(m) && Fits(c, m.rows, m.cols) && Partitioned(tasks, m.rows)
    requires Leads(m, Begun(m, c, tasks), order, s)
    ensures |s.cursors| == |s.tasks| && (AllDone(s) ==> IsProduct(m, s.c))
  {
    RunKeepsSound(m, Begun(m, c, tasks), order, s);
    if AllDone(s) {
      forall i, j | 0 <= i < m.rows && 0 <= j < m.cols
        ensures Computed(m, s.c, i, j)
      {
        assert Assigned(tasks, i);
        var t :| 0 <= t < |tasks| && InRows(tasks[t], i);
        assert Done(s, t);
        assert Passed(s.cursors[t], i, j);
      }
    }
  }

  // ---------------------------------------------------------------- every interleaving ends

  /** The steps a task takes for one row, and one more. */
  function RowSteps<T>(m: Operands<T>): nat {
    m.cols * (m.inner + 2) + m.inner + 1
  }

  function StepsLeft<T>(m: Operands<T>): Cursor<T> -> nat {
    (x: Cursor<T>) =>
      (if x.i < m.rows then (m.rows - x.i) * RowSteps(m) else 0)
      + (if x.j < m.cols then (m.cols - x.j) * (m.inner + 2) else 0)
      + (if x.k < m.inner then m.inner - x.k else 0)
  }

  lemma StepShrinks<T>(m: Operands<T>, s: State<T>, t: nat)
    requires WellSized(m) && CanStep(m, s, t)
    ensures Total(Step(m, s, t).cursors, StepsLeft(m)) < Total(s.cursors, StepsLeft(m))
  {
    var x, x', f := s.cursors[t], Step(m, s, t).cursors[t], StepsLeft(m);
    assert f(x') < f(x) by {
      MulStrict(m.rows - x.i - 1, m.rows - x.i, RowSteps(m));
      MulStrict(m.cols - x.j - 1, m.cols - x.j, m.inner + 2);
    }
    assert Step(m, s, t).cursors == s.cursors[t := x'];
    TotalUpdate(s.cursors, t, x', f);
  }

  lemma {:induction false} OrderIsBounded<T>(m: Operands<T>, s: State<T>, order: seq<nat>, s': State<T>)
    requires WellSized(m) && Leads(m, s, order, s')
    ensures |order| + Total(s'.cursors, StepsLeft(m)) <= Total(s.cursors, StepsLeft(m))
    decreases |order|
  {
    if order != [] {
      StepShrinks(m, s, order[0]);
      OrderIsBounded(m, Step(m, s, order[0]), order[1..], s');
    }
  }

  /** Parallel equals sequential: for every size, every number of tasks and every interleaving, the
      run is finite, and when no task has a step left c is, cell for cell, any other matrix that
      holds the product, the sequential one for instance. */
  lemma {:induction false} ParallelEqualsSequential<T>(m: Operands<T>, c: seq<T>, n: nat, tasks: seq<Rows>,
                                                        order: seq<nat>, s: State<T>, sequential: seq<T>)
    requires WellSized(m) && Fits(c, m.rows, m.cols) && IsProduct(m, sequential)
    requires n > 0 && |tasks| == n && forall t :: 0 <= t < n ==> tasks[t] == RowsOf(m.rows, n, t)
    requires Leads(m, Begun(m, c, tasks), order, s)
    ensures |order| <= Total(Begun(m, c, tasks).cursors, StepsLeft(m))
    ensures (forall t :: 0 <= t < n ==> !CanStep(m, s, t)) ==> s.c == sequential
  {
    RowsPartition(m.rows, n, tasks);
    OrderIsBounded(m, Begun(m, c, tasks), order, s);
    AnyInterleavingMultiplies(m, c, tasks, order, s);
    RunKeepsSound(m, Begun(m, c, tasks), order, s);
    if forall t :: 0 <= t < n ==> !CanStep(m, s, t) {
      forall t | 0 <= t < n
        ensures Done(s, t)
      {
        SoundTasksCanStep(m, s, t);
      }
      ProductUnique(m, s.c, sequential);
    }
  }

  // ---------------------------------------------------------------- the objects

  /** matrix_t. */
  class Matrix<T> {
    const data: array<T>
    const rows: nat
    const cols: nat

    ghost predicate Valid()
      reads data
    {
      Fits(data[..], rows, cols)
    }

    /** matrix_create: all cells zero. */
    constructor (rows: nat, cols: nat, zero: T)
      ensures Valid() && fresh(data) && this.rows == rows && this.cols == cols
      ensures forall x :: 0 <= x < data.Length ==> data[x] == zero
    {
      this.rows, this.cols := rows, cols;
      data := new T[Index(rows, 0, cols)](_ => zero);
    }

    /** matrix_get. */
    function Get(row: nat, col: nat): T
      requires Valid() && row < rows && col < cols
      reads data
    {
      IndexInside(row, col, rows, cols);
      data[Index(row, col, cols)]
    }

    /** matrix_set: one cell changes, no other. */
    method Set(row: nat, col: nat, value: T)
      requires Valid() && row < rows && col < cols
      modifies data
      ensures Valid() && Index(row, col, cols) < data.Length
      ensures data[..] == old(data[..])[Index(row, col, cols) := value]
    {
      IndexInside(row, col, rows, cols);
      data[Index(row, col, cols)] := value;
    }
  }

  /** The operands of A x B as they stand. */
  ghost function OperandsOf<T>(ops: Ops<T>, A: Matrix<T>, B: Matrix<T>): Operands<T>
    reads A.data, B.data
  {
    Operands(ops, A.data[..], B.data[..], A.rows, A.cols, B.cols)
  }

  /** Matching dimensions, and a result that is stored apart from the operands. */
  ghost predicate Multipliable<T>(A: Matrix<T>, B: Matrix<T>, C: Matrix<T>)
    reads A.data, B.data, C.data
  {
    && A.Valid() && B.Valid() && C.Valid()
    && A.cols == B.rows && C.rows == A.rows && C.cols == B.cols
    && A.data != C.data && B.data != C.data
  }

  /** The two inner loops that compute one cell and store it. */
  method ComputeCell<T>(ops: Ops<T>, A: Matrix<T>, B: Matrix<T>, C: Matrix<T>, i: nat, j: nat)
    requires Multipliable(A, B, C) && i < A.rows && j < B.cols
    modifies C.data
    ensures Multipliable(A, B, C) && Index(i, j, C.cols) < C.data.Length
    ensures C.data[..] == old(C.data[..])[Index(i, j, C.cols) := Dot(OperandsOf(ops, A, B), i, j, A.cols)]
  {
    ghost var m := OperandsOf(ops, A, B);
    var sum := ops.zero;
    for k := 0 to A.cols
      invariant C.data[..] == old(C.data[..])
      invariant sum == Dot(m, i, j, k)
    {
      IndexInside(i, k, m.rows, m.inner);
      IndexInside(k, j, m.inner, m.cols);
      assert A.Get(i, k) == m.a[Index(i, k, m.inner)] && B.Get(k, j) == m.b[Index(k, j, m.cols)];
      sum := ops.add(sum, ops.mul(A.Get(i, k), B.Get(k, j)));
    }
    C.Set(i, j, sum);
  }

  /** The cells of c before (i, j), from the given first row on. */
  ghost predicate ComputedBefore<T>(m: Operands<T>, c: seq<T>, first: nat, i: nat, j: nat)
    requires WellSized(m) && Fits(c, m.rows, m.cols)
  {
    forall i', j' :: first <= i' < m.rows && 0 <= j' < m.cols && (i' < i || (i' == i && j' < j)) ==>
      Computed(m, c, i', j')
  }

  /** The cells of other rows are as they were. */
  ghost predicate RowsKept<T>(c: seq<T>, was: seq<T>, first: nat, end: nat, rows: nat, cols: nat)
    requires Fits(c, rows, cols) && Fits(was, rows, cols)
  {
    forall i, j :: 0 <= i < rows && 0 <= j < cols && !(first <= i < end) ==> SameCell(c, was, i, j, rows, cols)
  }

  ghost predicate SameCell<T>(c: seq<T>, was: seq<T>, i: nat, j: nat, rows: nat, cols: nat)
    requires Fits(c, rows, cols) && Fits(was, rows, cols) && i < rows && j < cols
  {
    IndexInside(i, j, rows, cols);
    c[Index(i, j, cols)] == was[Index(i, j, cols)]
  }

  /** One more cell. */
  lemma CellDone<T>(m: Operands<T>, c: seq<T>, was: seq<T>, first: nat, end: nat, i: nat, j: nat)
    requires WellSized(m) && Fits(c, m.rows, m.cols) && Fits(was, m.rows, m.cols)
    requires first <= i < end && i < m.rows && j < m.cols
    requires ComputedBefore(m, c, first, i, j) && RowsKept(c, was, first, end, m.rows, m.cols)
    ensures Index(i, j, m.cols) < |c|
    ensures var c' := c[Index(i, j, m.cols) := Dot(m, i, j, m.inner)];
            && Fits(c', m.rows, m.cols) && ComputedBefore(m, c', first, i, j + 1)
            && RowsKept(c', was, first, end, m.rows, m.cols)
  {
    IndexInside(i, j, m.rows, m.cols);
    var v := Dot(m, i, j, m.inner);
    var c' := c[Index(i, j, m.cols) := v];
    forall i', j' | first <= i' < m.rows && 0 <= j' < m.cols && (i' < i || (i' == i && j' < j + 1))
      ensures Computed(m, c', i', j')
    {
      WriteFrame(m, c, i, j, v, i', j');
      assert (i' != i || j' != j) ==> Computed(m, c, i', j');
    }
    forall i', j' | 0 <= i' < m.rows && 0 <= j' < m.cols && !(first <= i' < end)
      ensures SameCell(c', was, i', j', m.rows, m.cols)
    {
      IndexApart(i, j, i', j', m.cols);
      IndexInside(i', j', m.rows, m.cols);
      assert SameCell(c, was, i', j', m.rows, m.cols);
    }
  }

  /** compute_rows: the rows of the task are computed, the other rows are left alone. */
  method ComputeRows<T>(ops: Ops<T>, A: Matrix<T>, B: Matrix<T>, C: Matrix<T>, task: Rows)
    requires Multipliable(A, B, C) && task.end <= A.rows
    modifies C.data
    ensures Multipliable(A, B, C)
    ensures ComputedBefore(OperandsOf(ops, A, B), C.data[..], task.start, task.end, 0)
    ensures RowsKept(C.data[..], old(C.data[..]), task.start, task.end, C.rows, C.cols)
  {
    ghost var m := OperandsOf(ops, A, B);
    ghost var was := C.data[..];
    var i := task.start;
    while i < task.end
      invariant task.start <= i
      invariant Multipliable(A, B, C) && OperandsOf(ops, A, B) == m
      invariant ComputedBefore(m, C.data[..], task.start, i, 0)
      invariant RowsKept(C.data[..], was, task.start, task.end, m.rows, m.cols)
      invariant i <= task.end || i == task.start
    {
      for j := 0 to B.cols
        invariant Multipliable(A, B, C) && OperandsOf(ops, A, B) == m
        invariant ComputedBefore(m, C.data[..], task.start, i, j)
        invariant RowsKept(C.data[..], was, task.start, task.end, m.rows, m.cols)
      {
        CellDone(m, C.data[..], was, task.start, task.end, i, j);
        ComputeCell(ops, A, B, C, i, j);
      }
      i := i + 1;
    }
  }

  /** matrix_multiply_sequential. */
  method MultiplySequential<T>(ops: Ops<T>, A: Matrix<T>, B: Matrix<T>, C: Matrix<T>)
    requires Multipliable(A, B, C)
    modifies C.data
    ensures Multipliable(A, B, C) && OperandsOf(ops, A, B) == old(OperandsOf(ops, A, B))
    ensures IsProduct(OperandsOf(ops, A, B), C.data[..])
    ensures Fits(A.data[..], A.rows, A.cols) && Fits(B.data[..], A.cols, B.cols)
    ensures C.data[..] == Product(ops, A.data[..], B.data[..], A.rows, A.cols, B.cols)
  {
    ghost var m := OperandsOf(ops, A, B);
    for i := 0 to A.rows
      invariant Multipliable(A, B, C) && OperandsOf(ops, A, B) == m
      invariant ComputedBefore(m, C.data[..], 0, i, 0)
    {
      for j := 0 to B.cols
        invariant Multipliable(A, B, C) && OperandsOf(ops, A, B) == m
        invariant ComputedBefore(m, C.data[..], 0, i, j)
      {
        CellDone(m, C.data[..], C.data[..], 0, m.rows, i, j);
        ComputeCell(ops, A, B, C, i, j);
      }
    }
    assert forall i, j :: 0 <= i < m.rows && 0 <= j < m.cols ==> Computed(m, C.data[..], i, j);
    ProductByRowsAndColumns(m, C.data[..]);
  }

  /** The loop of matrix_multiply_parallel that hands out the rows. */
  method DivideRows(rows: nat, numThreads: nat) returns (tasks: seq<Rows>)
    requires numThreads > 0
    ensures |tasks| == numThreads
    ensures forall t :: 0 <= t < numThreads ==> tasks[t] == RowsOf(rows, numThreads, t)
    ensures Partitioned(tasks, rows) && Even(tasks, rows)
  {
    var perThread := rows / numThreads;
    tasks := [];
    for t := 0 to numThreads
      invariant |tasks| == t
      invariant forall u :: 0 <= u < t ==> tasks[u] == RowsOf(rows, numThreads, u)
    {
      tasks := tasks + [Rows(t * perThread, if t == numThreads - 1 then rows else (t + 1) * perThread)];
    }
    RowsPartition(rows, numThreads, tasks);
    RowsEven(rows, numThreads, tasks);
  }
}
