/** Grids of temperatures and the sequential computation that the workers share out. */
module PlateGrids {
  import opened Arithmetic

  datatype Cell = Cell(i: int, j: int)

  type Grid = imap<Cell, real>

  predicate Inside(size: nat, c: Cell) { 0 <= c.i < size && 0 <= c.j < size }

  predicate OnBorder(size: nat, c: Cell) { c.i == 0 || c.j == 0 || c.i == size - 1 || c.j == size - 1 }

  /** Cells come row by row. */
  predicate Before(c: Cell, row: int, col: int) { c.i < row || (c.i == row && c.j < col) }

  ghost predicate IsGrid(size: nat, g: Grid) { forall c: Cell :: c in g <==> Inside(size, c) }

  /** No unlocked cell lies on the border, so its four neighbours exist. */
  ghost predicate Framed(size: nat, locked: iset<Cell>) {
    forall c: Cell | Inside(size, c) && OnBorder(size, c) :: c in locked
  }

  /** What an unlocked cell becomes. */
  ghost function Average(g: Grid, c: Cell): real
    requires Surrounded(g, c)
  {
    (g[Cell(c.i + 1, c.j)] + g[Cell(c.i, c.j + 1)] + g[Cell(c.i - 1, c.j)] + g[Cell(c.i, c.j - 1)] + 4.0 * g[c]) * 0.125
  }

  ghost predicate Surrounded(g: Grid, c: Cell) {
    && c in g
    && Cell(c.i + 1, c.j) in g && Cell(c.i, c.j + 1) in g && Cell(c.i - 1, c.j) in g && Cell(c.i, c.j - 1) in g
  }

  /** How far an unlocked cell is from the mean of its neighbours. */
  ghost function Deviation(g: Grid, c: Cell): real
    requires Surrounded(g, c)
  {
    var around := g[Cell(c.i + 1, c.j)] + g[Cell(c.i - 1, c.j)] + g[Cell(c.i, c.j + 1)] + g[Cell(c.i, c.j - 1)];
    var d := g[c] - around * 0.25;
    if d < 0.0 then -d else d
  }

  ghost function Updated(size: nat, locked: iset<Cell>, g: Grid, c: Cell): real
    requires IsGrid(size, g) && Framed(size, locked) && Inside(size, c)
  {
    if c in locked then g[c] else Average(g, c)
  }

  /** One Jacobi step restricted to the first rows; the whole step has rows == size. */
  ghost function Swept(size: nat, locked: iset<Cell>, rows: nat, g: Grid): (r: Grid)
    requires IsGrid(size, g) && Framed(size, locked)
    ensures IsGrid(size, r)
  {
    imap c: Cell | Inside(size, c) :: if c.i < rows then Updated(size, locked, g, c) else g[c]
  }

  lemma SweptIs(size: nat, locked: iset<Cell>, rows: nat, g: Grid, r: Grid)
    requires IsGrid(size, g) && IsGrid(size, r) && Framed(size, locked)
    requires forall c: Cell | Inside(size, c) :: r[c] == if c.i < rows then Updated(size, locked, g, c) else g[c]
    ensures r == Swept(size, locked, rows, g)
  {
  }

  ghost function Jacobi(size: nat, locked: iset<Cell>, g: Grid): Grid
    requires IsGrid(size, g) && Framed(size, locked)
  {
    Swept(size, locked, size, g)
  }

  /** The plate after k sweeps of the first rows. */
  ghost function Phases(size: nat, locked: iset<Cell>, rows: nat, g: Grid, k: nat): (r: Grid)
    requires IsGrid(size, g) && Framed(size, locked)
    ensures IsGrid(size, r)
  {
    if k == 0 then g else Swept(size, locked, rows, Phases(size, locked, rows, g, k - 1))
  }

  /** The plate is steady: every unlocked cell is close to the mean of its neighbours. */
  ghost predicate Calm(size: nat, locked: iset<Cell>, g: Grid)
    requires IsGrid(size, g) && Framed(size, locked)
  {
    forall c: Cell | Inside(size, c) && c !in locked :: Deviation(g, c) <= 0.1
  }

  // ---- Shares -------------------------------------------------------------------------------------

  /** The first row of worker w out of n; worker w ends where worker w + 1 begins. */
  function Begin(size: nat, n: nat, w: nat): nat
    requires n > 0
  {
    w * (size / n)
  }

  lemma SharesAreDisjoint(size: nat, n: nat, w: nat, v: nat)
    requires n > 0 && w < v <= n
    ensures Begin(size, n, w) <= Begin(size, n, w + 1) <= Begin(size, n, v) <= size
  {
    MulMonotone(size / n, w, w + 1);
    MulMonotone(size / n, w + 1, v);
    MulMonotone(size / n, v, n);
  }

  /** Every row that is handed out has an owner. */
  lemma RowHasOwner(size: nat, n: nat, i: nat) returns (w: nat)
    requires n > 0 && i < Begin(size, n, n)
    ensures w < n && Begin(size, n, w) <= i < Begin(size, n, w + 1)
  {
    var step := size / n;
    w := i / step;
    assert i == w * step + i % step;
    if w >= n {
      MulMonotone(step, n, w);
    }
  }

  /** How many rows are handed out: all but the remainder of the division. */
  lemma RowsHandedOut(size: nat, n: nat)
    requires n > 0
    ensures Begin(size, n, n) == size - size % n
  {
  }

  // ---- When a sweep of all shares is a Jacobi step ---------------------------------------------

  /** An unlocked cell in the rows left over shows the difference. */
  lemma LeftoverCell(size: nat, rows: nat, locked: iset<Cell>, c: Cell) returns (g: Grid)
    requires Framed(size, locked) && Inside(size, c) && c.i >= rows && c !in locked
    ensures IsGrid(size, g) && Swept(size, locked, rows, g) != Jacobi(size, locked, g)
  {
    g := imap d: Cell | Inside(size, d) :: if d == c then 8.0 else 0.0;
    assert Average(g, c) == 4.0;
    assert Swept(size, locked, rows, g)[c] == 8.0;
    assert Jacobi(size, locked, g)[c] == Average(g, c);
  }

  lemma LockedLeftover(size: nat, rows: nat, locked: iset<Cell>, g: Grid)
    requires Framed(size, locked) && IsGrid(size, g)
    requires forall c: Cell | Inside(size, c) && c.i >= rows :: c in locked
    ensures Swept(size, locked, rows, g) == Jacobi(size, locked, g)
  {
    var r, r' := Swept(size, locked, rows, g), Jacobi(size, locked, g);
    forall c: Cell | c in r ensures r[c] == r'[c] {
      assert Inside(size, c);
    }
  }

  lemma CoveredStep(size: nat, n: nat, locked: iset<Cell>, g: Grid)
    requires n > 0 && Framed(size, locked) && IsGrid(size, g)
    requires forall c: Cell | Inside(size, c) && c.i >= size - size % n :: c in locked
    ensures Swept(size, locked, Begin(size, n, n), g) == Jacobi(size, locked, g)
  {
    RowsHandedOut(size, n);
    LockedLeftover(size, Begin(size, n, n), locked, g);
  }

  /** The workers together compute a Jacobi step of every plate exactly if no unlocked cell lies in the
      rows that the division of the grid leaves over. */
  lemma SharesMakeAStep(size: nat, n: nat, locked: iset<Cell>)
    requires n > 0 && Framed(size, locked)
    ensures (forall g: Grid | IsGrid(size, g) :: Swept(size, locked, Begin(size, n, n), g) == Jacobi(size, locked, g))
       <==> forall c: Cell | Inside(size, c) && c.i >= size - size % n :: c in locked
  {
    RowsHandedOut(size, n);
    var rows := Begin(size, n, n);
    if c: Cell :| Inside(size, c) && c.i >= rows && c !in locked {
      var g := LeftoverCell(size, rows, locked, c);
    } else {
      forall g: Grid | IsGrid(size, g)
        ensures Swept(size, locked, rows, g) == Jacobi(size, locked, g)
      {
        CoveredStep(size, n, locked, g);
      }
    }
  }

  /** So it is a Jacobi step if the number of workers divides the size, or leaves the last row only. */
  lemma DivisibleSharesMakeAStep(size: nat, n: nat, locked: iset<Cell>, g: Grid)
    requires n > 0 && Framed(size, locked) && IsGrid(size, g)
    requires size % n <= 1
    ensures Swept(size, locked, Begin(size, n, n), g) == Jacobi(size, locked, g)
  {
    CoveredStep(size, n, locked, g);
  }

  // ---- What sweeps keep --------------------------------------------------------------------------

  ghost predicate Tempered(size: nat, g: Grid)
    requires IsGrid(size, g)
  {
    forall c: Cell | Inside(size, c) :: 0.0 <= g[c] <= 100.0
  }

  lemma AverageInRange(g: Grid, c: Cell)
    requires Surrounded(g, c) && forall d: Cell | d in g :: 0.0 <= g[d] <= 100.0
    ensures 0.0 <= Average(g, c) <= 100.0
  {
  }

  lemma SweptTempered(size: nat, locked: iset<Cell>, rows: nat, g: Grid)
    requires IsGrid(size, g) && Framed(size, locked) && Tempered(size, g)
    ensures Tempered(size, Swept(size, locked, rows, g))
  {
    var r := Swept(size, locked, rows, g);
    forall c: Cell | Inside(size, c) ensures 0.0 <= r[c] <= 100.0 {
      if c.i < rows && c !in locked {
        AverageInRange(g, c);
        assert r[c] == Average(g, c);
      } else {
        assert r[c] == g[c];
      }
    }
  }

  /** Sweeps never leave the range from 0 to 100. */
  lemma {:induction false} PhasesTempered(size: nat, locked: iset<Cell>, rows: nat, g: Grid, k: nat)
    requires IsGrid(size, g) && Framed(size, locked) && Tempered(size, g)
    ensures Tempered(size, Phases(size, locked, rows, g, k))
  {
    if k > 0 {
      PhasesTempered(size, locked, rows, g, k - 1);
      SweptTempered(size, locked, rows, Phases(size, locked, rows, g, k - 1));
    }
  }

  /** Sweeps never change a locked cell. */
  lemma {:induction false} PhasesLocked(size: nat, locked: iset<Cell>, rows: nat, g: Grid, k: nat, c: Cell)
    requires IsGrid(size, g) && Framed(size, locked) && Inside(size, c) && c in locked
    ensures Phases(size, locked, rows, g, k)[c] == g[c]
  {
    if k > 0 {
      PhasesLocked(size, locked, rows, g, k - 1, c);
    }
  }
}
