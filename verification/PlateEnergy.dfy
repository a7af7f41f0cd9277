/** Why the sweeps end: half the sum of the squared differences between neighbouring cells never grows,
    and falls by at least 0.01 with every sweep of a plate that is not steady. */
module PlateEnergy {
  import opened PlateGrids

  // ---- Finite sums -----------------------------------------------------------------------------------

  ghost function Total(f: int -> real, n: nat): real { if n == 0 then 0.0 else Total(f, n - 1) + f(n - 1) }

  lemma {:induction false} TotalAtMost(f: int -> real, g: int -> real, n: nat)
    requires forall k | 0 <= k < n :: f(k) <= g(k)
    ensures Total(f, n) <= Total(g, n)
  {
    if n > 0 {
      TotalAtMost(f, g, n - 1);
    }
  }

  lemma {:induction false} TotalSum(f: int -> real, g: int -> real, h: int -> real, n: nat)
    requires forall k | 0 <= k < n :: h(k) == f(k) + g(k)
    ensures Total(h, n) == Total(f, n) + Total(g, n)
  {
    if n > 0 {
      TotalSum(f, g, h, n - 1);
    }
  }

  /** A sum without positive terms is at most any of its terms. */
  lemma {:induction false} TotalAtMostTerm(f: int -> real, n: nat, k: nat)
    requires k < n && forall j | 0 <= j < n :: f(j) <= 0.0
    ensures Total(f, n) <= f(k)
  {
    if k < n - 1 {
      TotalAtMostTerm(f, n - 1, k);
    } else {
      TotalNotPositive(f, n - 1);
    }
  }

  lemma {:induction false} TotalNotPositive(f: int -> real, n: nat)
    requires forall j | 0 <= j < n :: f(j) <= 0.0
    ensures Total(f, n) <= 0.0
  {
    if n > 0 {
      TotalNotPositive(f, n - 1);
    }
  }

  lemma {:induction false} TotalNotNegative(f: int -> real, n: nat)
    requires forall j | 0 <= j < n :: f(j) >= 0.0
    ensures Total(f, n) >= 0.0
  {
    if n > 0 {
      TotalNotNegative(f, n - 1);
    }
  }

  ghost function RowOf(f: (int, int) -> real, i: int): int -> real { (j: int) => f(i, j) }

  ghost function ColumnOf(f: (int, int) -> real, j: int): int -> real { (i: int) => f(i, j) }

  ghost function RowTotals(f: (int, int) -> real, m: nat): int -> real { (i: int) => Total(RowOf(f, i), m) }

  ghost function ColumnTotals(f: (int, int) -> real, n: nat): int -> real { (j: int) => Total(ColumnOf(f, j), n) }

  /** The order of a double sum does not matter. */
  lemma {:induction false} Swap(f: (int, int) -> real, n: nat, m: nat)
    ensures Total(RowTotals(f, m), n) == Total(ColumnTotals(f, n), m)
  {
    if n == 0 {
      TotalNotPositive(ColumnTotals(f, 0), m);
      TotalNotNegative(ColumnTotals(f, 0), m);
    } else {
      Swap(f, n - 1, m);
      TotalSum(ColumnTotals(f, n - 1), RowOf(f, n - 1), ColumnTotals(f, n), m);
    }
  }

  // ---- One row or column ---------------------------------------------------------------------------

  ghost function Edge(x: int -> real, j: int): real { (x(j) - x(j + 1)) * (x(j) - x(j + 1)) / 2.0 }

  ghost function Edges(x: int -> real): int -> real { (j: int) => Edge(x, j) }

  /** What the change y of a line x costs at position j, seen from its left and its right neighbour. */
  ghost function FromLeft(x: int -> real, y: int -> real, j: int): real { y(j) * (x(j) - x(j - 1)) + y(j) * y(j) }

  ghost function FromRight(x: int -> real, y: int -> real, j: int): real { y(j) * (x(j) - x(j + 1)) + y(j) * y(j) }

  ghost function Lefts(x: int -> real, y: int -> real): int -> real { (j: int) => FromLeft(x, y, j) }

  ghost function Rights(x: int -> real, y: int -> real): int -> real { (j: int) => FromRight(x, y, j) }

  ghost function Pull(x: int -> real, y: int -> real, j: int): real { FromLeft(x, y, j) + FromRight(x, y, j) }

  ghost function Pulls(x: int -> real, y: int -> real): int -> real { (j: int) => Pull(x, y, j) }

  lemma EdgeStep(a: real, b: real, c: real, d: real)
    ensures ((a + c) - (b + d)) * ((a + c) - (b + d)) / 2.0
            <= (a - b) * (a - b) / 2.0 + (c * (a - b) + c * c) + (d * (b - a) + d * d)
  {
    var u, v, w := a - b, c - d, c + d;
    assert (a + c) - (b + d) == u + v;
    assert (u + v) * (u + v) == u * u + 2.0 * (u * v) + v * v;
    assert u * v == c * u - d * u;
    assert v * v + w * w == 2.0 * (c * c) + 2.0 * (d * d);
    assert w * w >= 0.0;
    assert d * (b - a) == -(d * u);
  }

  /** If each edge costs what its two ends do, the edges together cost what the positions do. */
  lemma {:induction false} Telescope(e: int -> real, e': int -> real, l: int -> real, r: int -> real, p: int -> real,
                                     k: nat)
    requires l(0) == 0.0 && forall j | 0 <= j < k :: e'(j) <= e(j) + r(j) + l(j + 1)
    requires forall j | 0 <= j < k :: p(j) == l(j) + r(j)
    ensures Total(e', k) <= Total(e, k) + Total(p, k) + l(k)
  {
    if k > 0 {
      Telescope(e, e', l, r, p, k - 1);
      assert e'(k - 1) <= e(k - 1) + r(k - 1) + l(k - 1 + 1);
    }
  }

  lemma LineEdge(x: int -> real, y: int -> real, x': int -> real, j: int)
    requires x'(j) == x(j) + y(j) && x'(j + 1) == x(j + 1) + y(j + 1)
    ensures Edges(x')(j) <= Edges(x)(j) + Rights(x, y)(j) + Lefts(x, y)(j + 1)
  {
    EdgeStep(x(j), x(j + 1), y(j), y(j + 1));
  }

  lemma Still(x: int -> real, y: int -> real, j: int)
    requires y(j) == 0.0
    ensures Lefts(x, y)(j) == Pulls(x, y)(j) == Pull(x, y, j) == 0.0
  {
  }

  /** Changing a line whose ends stay costs no more than its pulls. */
  lemma LineDrops(x: int -> real, y: int -> real, x': int -> real, m: nat)
    requires m > 0 && y(0) == 0.0 && y(m - 1) == 0.0 && forall j | 0 <= j < m :: x'(j) == x(j) + y(j)
    ensures Total(Edges(x'), m - 1) <= Total(Edges(x), m - 1) + Total(Pulls(x, y), m)
  {
    forall j | 0 <= j < m - 1 ensures Edges(x')(j) <= Edges(x)(j) + Rights(x, y)(j) + Lefts(x, y)(j + 1) {
      LineEdge(x, y, x', j);
    }
    Still(x, y, 0);
    Still(x, y, m - 1);
    LineTotals(Edges(x), Edges(x'), Lefts(x, y), Rights(x, y), Pulls(x, y), m);
  }

  lemma LineTotals(e: int -> real, e': int -> real, l: int -> real, r: int -> real, p: int -> real, m: nat)
    requires m > 0 && l(0) == 0.0 && l(m - 1) == 0.0 && p(m - 1) == 0.0
    requires forall j | 0 <= j < m - 1 :: e'(j) <= e(j) + r(j) + l(j + 1)
    requires forall j | 0 <= j < m - 1 :: p(j) == l(j) + r(j)
    ensures Total(e', m - 1) <= Total(e, m - 1) + Total(p, m)
  {
    Telescope(e, e', l, r, p, m - 1);
    assert Total(p, m) == Total(p, m - 1) + p(m - 1);
  }

  // ---- The plate --------------------------------------------------------------------------------------

  ghost function ValueAt(g: Grid, i: int, j: int): real { if Cell(i, j) in g then g[Cell(i, j)] else 0.0 }

  ghost function Row(g: Grid, i: int): int -> real { (j: int) => ValueAt(g, i, j) }

  ghost function Column(g: Grid, j: int): int -> real { (i: int) => ValueAt(g, i, j) }

  ghost function RowEnergies(size: nat, g: Grid): int -> real
    requires size > 0
  {
    (i: int) => Total(Edges(Row(g, i)), size - 1)
  }

  ghost function ColumnEnergies(size: nat, g: Grid): int -> real
    requires size > 0
  {
    (j: int) => Total(Edges(Column(g, j)), size - 1)
  }

  /** Half the sum of the squared differences between neighbouring cells. */
  ghost function Energy(size: nat, g: Grid): real {
    if size == 0 then 0.0 else Total(RowEnergies(size, g), size) + Total(ColumnEnergies(size, g), size)
  }

  lemma EnergyNotNegative(size: nat, g: Grid)
    ensures Energy(size, g) >= 0.0
  {
    if size > 0 {
      forall i | 0 <= i < size ensures RowEnergies(size, g)(i) >= 0.0 {
        EdgesNotNegative(Row(g, i), size - 1);
      }
      TotalNotNegative(RowEnergies(size, g), size);
      ColumnsNotNegative(size, g);
    }
  }

  lemma ColumnsNotNegative(size: nat, g: Grid)
    requires size > 0
    ensures Total(ColumnEnergies(size, g), size) >= 0.0
  {
    forall j | 0 <= j < size ensures ColumnEnergies(size, g)(j) >= 0.0 {
      EdgesNotNegative(Column(g, j), size - 1);
    }
    TotalNotNegative(ColumnEnergies(size, g), size);
  }

  lemma EdgesNotNegative(x: int -> real, n: nat)
    ensures Total(Edges(x), n) >= 0.0
  {
    forall j ensures Edges(x)(j) >= 0.0 {
      SquareNotNegative(x(j) - x(j + 1));
    }
    TotalNotNegative(Edges(x), n);
  }

  lemma SquareNotNegative(r: real)
    ensures r * r >= 0.0
  {
  }

  /** How a sweep changes every cell. */
  ghost function Moved(size: nat, locked: iset<Cell>, g: Grid): (d: Grid)
    requires IsGrid(size, g) && Framed(size, locked)
    ensures IsGrid(size, d)
  {
    imap c: Cell | Inside(size, c) :: Jacobi(size, locked, g)[c] - g[c]
  }

  /** What a change d of the plate costs in the row and in the column of a cell. */
  ghost function RowPull(g: Grid, d: Grid): (int, int) -> real { (i: int, j: int) => Pull(Row(g, i), Row(d, i), j) }

  ghost function ColumnPull(g: Grid, d: Grid): (int, int) -> real {
    (i: int, j: int) => Pull(Column(g, j), Column(d, j), i)
  }

  ghost function CellPull(g: Grid, d: Grid): (int, int) -> real {
    (i: int, j: int) => RowPull(g, d)(i, j) + ColumnPull(g, d)(i, j)
  }

  lemma CellPullIs(g: Grid, d: Grid, i: int, j: int)
    ensures CellPull(g, d)(i, j) == Pull(Row(g, i), Row(d, i), j) + Pull(Column(g, j), Column(d, j), i)
  {
    assert RowPull(g, d)(i, j) == Pull(Row(g, i), Row(d, i), j);
    assert ColumnPull(g, d)(i, j) == Pull(Column(g, j), Column(d, j), i);
  }

  /** d turns g into g' and leaves the border alone. */
  ghost predicate Turns(size: nat, g: Grid, d: Grid, g': Grid) {
    && IsGrid(size, g) && IsGrid(size, d) && IsGrid(size, g')
    && forall c: Cell | Inside(size, c) :: g'[c] == g[c] + d[c] && (OnBorder(size, c) ==> d[c] == 0.0)
  }

  lemma RowDrops(size: nat, g: Grid, d: Grid, g': Grid, i: int)
    requires Turns(size, g, d, g') && 0 <= i < size
    ensures RowEnergies(size, g')(i) <= RowEnergies(size, g)(i) + RowTotals(RowPull(g, d), size)(i)
  {
    var x, y, x' := Row(g, i), Row(d, i), Row(g', i);
    forall j | 0 <= j < size ensures x'(j) == x(j) + y(j) && (j == 0 || j == size - 1 ==> y(j) == 0.0) {
      assert Inside(size, Cell(i, j));
    }
    LineDrops(x, y, x', size);
    TotalAtMost(Pulls(x, y), RowOf(RowPull(g, d), i), size);
  }

  lemma ColumnDrops(size: nat, g: Grid, d: Grid, g': Grid, j: int)
    requires Turns(size, g, d, g') && 0 <= j < size
    ensures ColumnEnergies(size, g')(j) <= ColumnEnergies(size, g)(j) + ColumnTotals(ColumnPull(g, d), size)(j)
  {
    var x, y, x' := Column(g, j), Column(d, j), Column(g', j);
    forall i | 0 <= i < size ensures x'(i) == x(i) + y(i) && (i == 0 || i == size - 1 ==> y(i) == 0.0) {
      assert Inside(size, Cell(i, j));
    }
    LineDrops(x, y, x', size);
    TotalAtMost(Pulls(x, y), ColumnOf(ColumnPull(g, d), j), size);
  }

  ghost function Plus(f: int -> real, h: int -> real): int -> real { (k: int) => f(k) + h(k) }

  /** The energy grows by no more than the cells cost together. */
  lemma EnergyStep(size: nat, g: Grid, d: Grid, g': Grid)
    requires Turns(size, g, d, g') && size > 0
    ensures Energy(size, g') <= Energy(size, g) + Total(RowTotals(CellPull(g, d), size), size)
  {
    var rows, columns := RowTotals(RowPull(g, d), size), ColumnTotals(ColumnPull(g, d), size);
    forall i | 0 <= i < size ensures RowEnergies(size, g')(i) <= Plus(RowEnergies(size, g), rows)(i) {
      RowDrops(size, g, d, g', i);
    }
    TotalAtMost(RowEnergies(size, g'), Plus(RowEnergies(size, g), rows), size);
    TotalSum(RowEnergies(size, g), rows, Plus(RowEnergies(size, g), rows), size);
    forall j | 0 <= j < size ensures ColumnEnergies(size, g')(j) <= Plus(ColumnEnergies(size, g), columns)(j) {
      ColumnDrops(size, g, d, g', j);
    }
    TotalAtMost(ColumnEnergies(size, g'), Plus(ColumnEnergies(size, g), columns), size);
    TotalSum(ColumnEnergies(size, g), columns, Plus(ColumnEnergies(size, g), columns), size);
    Swap(ColumnPull(g, d), size, size);
    PullsTogether(size, g, d);
  }

  lemma PullsTogether(size: nat, g: Grid, d: Grid)
    ensures Total(RowTotals(CellPull(g, d), size), size)
         == Total(RowTotals(RowPull(g, d), size), size) + Total(RowTotals(ColumnPull(g, d), size), size)
  {
    var p, q, r := RowPull(g, d), ColumnPull(g, d), CellPull(g, d);
    forall i | 0 <= i < size ensures RowTotals(r, size)(i) == RowTotals(p, size)(i) + RowTotals(q, size)(i) {
      TotalSum(RowOf(p, i), RowOf(q, i), RowOf(r, i), size);
    }
    TotalSum(RowTotals(p, size), RowTotals(q, size), RowTotals(r, size), size);
  }

  // ---- The cells of a sweep ----------------------------------------------------------------------------

  lemma MovedTurns(size: nat, locked: iset<Cell>, g: Grid)
    requires IsGrid(size, g) && Framed(size, locked)
    ensures Turns(size, g, Moved(size, locked, g), Jacobi(size, locked, g))
  {
    var d, g' := Moved(size, locked, g), Jacobi(size, locked, g);
    forall c: Cell | Inside(size, c) ensures g'[c] == g[c] + d[c] && (OnBorder(size, c) ==> d[c] == 0.0) {
      assert OnBorder(size, c) ==> c in locked;
    }
  }

  lemma PullOf(x: int -> real, y: int -> real, j: int, a: real, b: real, c: real, d: real)
    requires x(j - 1) == a && x(j) == b && x(j + 1) == c && y(j) == d
    ensures Pull(x, y, j) == d * (b - a) + d * d + (d * (b - c) + d * d)
  {
  }

  lemma PullIs(w: real, e: real, n: real, t: real, x: real, y: real)
    requires y == (w + e + n + t + 4.0 * x) * 0.125 - x
    ensures (y * (x - w) + y * y + (y * (x - e) + y * y)) + (y * (x - n) + y * y + (y * (x - t) + y * y))
        == -(4.0 * (y * y))
  {
    var r := 4.0 * x - w - e - n - t;
    assert r == -8.0 * y;
    assert y * (x - w) + y * (x - e) + y * (x - n) + y * (x - t) == y * r;
    assert y * r == -8.0 * (y * y);
  }

  lemma FreePulls(r: int -> real, dr: int -> real, j: int, c: int -> real, dc: int -> real, i: int, y: real, cost: real)
    requires r(j) == c(i) && dr(j) == dc(i) == y
    requires y == (r(j - 1) + r(j + 1) + c(i - 1) + c(i + 1) + 4.0 * r(j)) * 0.125 - r(j)
    requires cost == Pull(r, dr, j) + Pull(c, dc, i)
    ensures cost == -(4.0 * (y * y))
  {
    PullOf(r, dr, j, r(j - 1), r(j), r(j + 1), y);
    PullOf(c, dc, i, c(i - 1), r(j), c(i + 1), y);
    PullIs(r(j - 1), r(j + 1), c(i - 1), c(i + 1), r(j), y);
  }

  /** A sweep moves a cell that is not locked half the way to the mean of its neighbours. */
  lemma HalfWay(size: nat, locked: iset<Cell>, g: Grid, c: Cell)
    requires IsGrid(size, g) && Framed(size, locked) && Inside(size, c) && c !in locked
    ensures var y := Moved(size, locked, g)[c]; Deviation(g, c) == 2.0 * y || Deviation(g, c) == -2.0 * y
  {
    assert Moved(size, locked, g)[c] == Average(g, c) - g[c];
  }

  lemma Mean(size: nat, locked: iset<Cell>, g: Grid, i: int, j: int)
    requires IsGrid(size, g) && Framed(size, locked) && Inside(size, Cell(i, j)) && Cell(i, j) !in locked
    ensures var r, c, d := Row(g, i), Column(g, j), Moved(size, locked, g);
      && r(j) == c(i) && Row(d, i)(j) == Column(d, j)(i) == d[Cell(i, j)]
      && d[Cell(i, j)] == (r(j - 1) + r(j + 1) + c(i - 1) + c(i + 1) + 4.0 * r(j)) * 0.125 - r(j)
  {
    var d := Moved(size, locked, g);
    assert !OnBorder(size, Cell(i, j)) && Surrounded(g, Cell(i, j));
    assert d[Cell(i, j)] == Average(g, Cell(i, j)) - g[Cell(i, j)];
  }

  lemma FreeCost(size: nat, locked: iset<Cell>, g: Grid, i: int, j: int)
    requires IsGrid(size, g) && Framed(size, locked) && Inside(size, Cell(i, j)) && Cell(i, j) !in locked
    ensures var y := Moved(size, locked, g)[Cell(i, j)]; CellPull(g, Moved(size, locked, g))(i, j) == -(4.0 * (y * y))
  {
    var d := Moved(size, locked, g);
    Mean(size, locked, g, i, j);
    CellPullIs(g, d, i, j);
    FreePulls(Row(g, i), Row(d, i), j, Column(g, j), Column(d, j), i, d[Cell(i, j)], CellPull(g, d)(i, j));
  }

  /** A cell that is not locked costs minus the square of its distance from the mean of its neighbours. */
  lemma FreeCell(size: nat, locked: iset<Cell>, g: Grid, c: Cell)
    requires IsGrid(size, g) && Framed(size, locked) && Inside(size, c) && c !in locked
    ensures CellPull(g, Moved(size, locked, g))(c.i, c.j) == -(Deviation(g, c) * Deviation(g, c))
  {
    assert c == Cell(c.i, c.j);
    FreeCost(size, locked, g, c.i, c.j);
    HalfWay(size, locked, g, c);
    Doubled(Deviation(g, c), Moved(size, locked, g)[c]);
  }

  lemma Doubled(r: real, y: real)
    requires r == 2.0 * y || r == -2.0 * y
    ensures r * r == 4.0 * (y * y)
  {
  }

  /** Any other cell costs nothing. */
  lemma LockedCell(size: nat, locked: iset<Cell>, g: Grid, c: Cell)
    requires IsGrid(size, g) && Framed(size, locked) && Inside(size, c) && c in locked
    ensures CellPull(g, Moved(size, locked, g))(c.i, c.j) == 0.0
  {
    var d := Moved(size, locked, g);
    assert c == Cell(c.i, c.j) && d[c] == 0.0;
    Still(Row(g, c.i), Row(d, c.i), c.j);
    Still(Column(g, c.j), Column(d, c.j), c.i);
    CellPullIs(g, d, c.i, c.j);
  }

  lemma CellsCost(size: nat, locked: iset<Cell>, g: Grid, i: int, j: int)
    requires IsGrid(size, g) && Framed(size, locked) && 0 <= i < size && 0 <= j < size
    ensures CellPull(g, Moved(size, locked, g))(i, j) <= 0.0
  {
    var c := Cell(i, j);
    if c in locked {
      LockedCell(size, locked, g, c);
    } else {
      FreeCell(size, locked, g, c);
      SquareNotNegative(Deviation(g, c));
    }
  }

  /** A Jacobi step lowers the energy by at least the square of the distance of any free cell from the mean of
      its neighbours, and it never raises it. */
  lemma StepDrops(size: nat, locked: iset<Cell>, g: Grid, c: Cell)
    requires IsGrid(size, g) && Framed(size, locked) && Inside(size, c) && c !in locked
    ensures Energy(size, Jacobi(size, locked, g)) <= Energy(size, g) - Deviation(g, c) * Deviation(g, c)
  {
    var d := Moved(size, locked, g);
    var f := CellPull(g, d);
    MovedTurns(size, locked, g);
    EnergyStep(size, g, d, Jacobi(size, locked, g));
    forall i | 0 <= i < size ensures RowTotals(f, size)(i) <= 0.0 {
      RowCosts(size, locked, g, i);
    }
    TotalAtMostTerm(RowTotals(f, size), size, c.i);
    forall j | 0 <= j < size ensures RowOf(f, c.i)(j) <= 0.0 {
      CellsCost(size, locked, g, c.i, j);
    }
    TotalAtMostTerm(RowOf(f, c.i), size, c.j);
    FreeCell(size, locked, g, c);
  }

  lemma RowCosts(size: nat, locked: iset<Cell>, g: Grid, i: int)
    requires IsGrid(size, g) && Framed(size, locked) && 0 <= i < size
    ensures RowTotals(CellPull(g, Moved(size, locked, g)), size)(i) <= 0.0
  {
    var f := CellPull(g, Moved(size, locked, g));
    forall j | 0 <= j < size ensures RowOf(f, i)(j) <= 0.0 {
      CellsCost(size, locked, g, i, j);
    }
    TotalNotPositive(RowOf(f, i), size);
  }

  lemma StepKeeps(size: nat, locked: iset<Cell>, g: Grid)
    requires IsGrid(size, g) && Framed(size, locked)
    ensures Energy(size, Jacobi(size, locked, g)) <= Energy(size, g)
  {
    if size > 0 {
      var d := Moved(size, locked, g);
      MovedTurns(size, locked, g);
      EnergyStep(size, g, d, Jacobi(size, locked, g));
      forall i | 0 <= i < size ensures RowTotals(CellPull(g, d), size)(i) <= 0.0 {
        RowCosts(size, locked, g, i);
      }
      TotalNotPositive(RowTotals(CellPull(g, d), size), size);
    }
  }

  /** A step from a plate that is not steady lowers the energy by at least 0.01. */
  lemma RestlessDrops(size: nat, locked: iset<Cell>, g: Grid)
    requires IsGrid(size, g) && Framed(size, locked) && !Calm(size, locked, g)
    ensures Energy(size, Jacobi(size, locked, g)) <= Energy(size, g) - 0.01
  {
    var c: Cell :| Inside(size, c) && c !in locked && Deviation(g, c) > 0.1;
    StepDrops(size, locked, g, c);
    SquareAbove(Deviation(g, c));
  }

  lemma SquareAbove(r: real)
    requires r > 0.1
    ensures r * r >= 0.01
  {
    assert r * r - 0.01 == (r - 0.1) * (r + 0.1);
  }
}
