/** The two plates and the locks in their arrays, and the loops over them. */
module PlateArrays {
  import opened PlateGrids

  ghost function Contents(a: array2<real>): Grid
    reads a
  {
    imap c: Cell | 0 <= c.i < a.Length0 && 0 <= c.j < a.Length1 :: a[c.i, c.j]
  }

  /** What a cell holds in the two plates, and its lock. */
  datatype Fill = Fill(main: real, prev: real, lock: char)

  const COLD := Fill(0.0, 0.0, '1')
  const HOT := Fill(100.0, 100.0, '1')
  const FREE := Fill(50.0, 50.0, '0')

  /** The first pass of initPlate. */
  function FirstFill(size: nat, i: int, j: int): Fill {
    if i == 0 || j == 0 || j == size - 1 then COLD
    else if i == size - 1 then HOT
    else if i == 400 && 0 <= j <= 330 then HOT
    else if i == 200 && j == 500 then HOT
    else FREE
  }

  /** After k rows of the second pass. */
  function SecondFill(size: nat, k: int, i: int, j: int): Fill {
    if i < k && i % 20 == 0 then HOT else FirstFill(size, i, j)
  }

  /** After k columns of the third pass. */
  function ThirdFill(size: nat, k: int, i: int, j: int): Fill {
    if j < k && j % 20 == 0 then COLD else SecondFill(size, size, i, j)
  }

  /** What is left after all passes: every 20th column is cold and every 20th row between them hot. */
  function StartFill(size: nat, i: int, j: int): Fill {
    if j % 20 == 0 then COLD
    else if i % 20 == 0 then HOT
    else if j == size - 1 then COLD
    else if i == size - 1 then HOT
    else FREE
  }

  class Plates {
    const size: nat
    const main: array2<real>
    const prev: array2<real>
    const locks: array2<char>

    ghost predicate Valid() {
      && main.Length0 == main.Length1 == prev.Length0 == prev.Length1 == locks.Length0 == locks.Length1 == size
      && main != prev
    }

    ghost function Locked(): iset<Cell>
      requires Valid()
      reads locks
    {
      iset c: Cell | Inside(size, c) && locks[c.i, c.j] != '0'
    }

    constructor (size: nat)
      ensures Valid() && this.size == size && fresh(main) && fresh(prev) && fresh(locks)
    {
      this.size := size;
      main, prev, locks := new real[size, size], new real[size, size], new char[size, size];
    }

    function At(i: int, j: int): Fill
      requires Valid() && 0 <= i < size && 0 <= j < size
      reads main, prev, locks
    {
      Fill(main[i, j], prev[i, j], locks[i, j])
    }

    method Put(i: int, j: int, f: Fill)
      requires Valid() && 0 <= i < size && 0 <= j < size
      modifies main, prev, locks
      ensures At(i, j) == f
      ensures forall p, q | 0 <= p < size && 0 <= q < size && (p != i || q != j) :: At(p, q) == old(At(p, q))
    {
      main[i, j], prev[i, j], locks[i, j] := f.main, f.prev, f.lock;
    }

    /** One row of the first pass. */
    method FirstRow(i: int)
      requires Valid() && 0 <= i < size
      modifies main, prev, locks
      ensures forall q | 0 <= q < size :: At(i, q) == FirstFill(size, i, q)
      ensures forall p, q | 0 <= p < size && 0 <= q < size && p != i :: At(p, q) == old(At(p, q))
    {
      var j := 0;
      while j < size
        invariant 0 <= j <= size
        invariant forall q | 0 <= q < j :: At(i, q) == FirstFill(size, i, q)
        invariant forall p, q | 0 <= p < size && 0 <= q < size && p != i :: At(p, q) == old(At(p, q))
      {
        if i == 0 || j == 0 || j == size - 1 {
          Put(i, j, COLD);
        } else if i == size - 1 {
          Put(i, j, HOT);
        } else if i == 400 && j >= 0 && j <= 330 {
          Put(i, j, HOT);
        } else if i == 200 && j == 500 {
          Put(i, j, HOT);
        } else {
          Put(i, j, FREE);
        }
        j := j + 1;
      }
    }

    method HotRow(i: int)
      requires Valid() && 0 <= i < size
      modifies main, prev, locks
      ensures forall q | 0 <= q < size :: At(i, q) == HOT
      ensures forall p, q | 0 <= p < size && 0 <= q < size && p != i :: At(p, q) == old(At(p, q))
    {
      var j := 0;
      while j < size
        invariant 0 <= j <= size
        invariant forall q | 0 <= q < j :: At(i, q) == HOT
        invariant forall p, q | 0 <= p < size && 0 <= q < size && p != i :: At(p, q) == old(At(p, q))
      {
        Put(i, j, HOT);
        j := j + 1;
      }
    }

    method ColdColumn(j: int)
      requires Valid() && 0 <= j < size
      modifies main, prev, locks
      ensures forall p | 0 <= p < size :: At(p, j) == COLD
      ensures forall p, q | 0 <= p < size && 0 <= q < size && q != j :: At(p, q) == old(At(p, q))
    {
      var i := 0;
      while i < size
        invariant 0 <= i <= size
        invariant forall p | 0 <= p < i :: At(p, j) == COLD
        invariant forall p, q | 0 <= p < size && 0 <= q < size && q != j :: At(p, q) == old(At(p, q))
      {
        Put(i, j, COLD);
        i := i + 1;
      }
    }

    /** The three passes of initPlate. */
    method InitPlate()
      requires Valid()
      modifies main, prev, locks
      ensures forall p, q | 0 <= p < size && 0 <= q < size :: At(p, q) == StartFill(size, p, q)
      ensures forall p, q | 0 <= p < size && 0 <= q < size ::
                if q % 20 == 0 || (q == size - 1 && p % 20 != 0) then
                  main[p, q] == prev[p, q] == 0.0 && locks[p, q] == '1'
                else if p % 20 == 0 || p == size - 1 then
                  main[p, q] == prev[p, q] == 100.0 && locks[p, q] == '1'
                else
                  main[p, q] == prev[p, q] == 50.0 && locks[p, q] == '0'
      ensures Contents(main) == Contents(prev) == StartGrid(size) && Locked() == StartLocks(size)
    {
      var i := 0;
      while i < size
        invariant 0 <= i <= size
        invariant forall p, q | 0 <= p < i && 0 <= q < size :: At(p, q) == FirstFill(size, p, q)
      {
        FirstRow(i);
        i := i + 1;
      }
      i := 0;
      while i < size
        invariant 0 <= i <= size
        invariant forall p, q | 0 <= p < size && 0 <= q < size :: At(p, q) == SecondFill(size, i, p, q)
      {
        if i % 20 == 0 {
          HotRow(i);
        }
        i := i + 1;
      }
      var j := 0;
      while j < size
        invariant 0 <= j <= size
        invariant forall p, q | 0 <= p < size && 0 <= q < size :: At(p, q) == ThirdFill(size, j, p, q)
      {
        if j % 20 == 0 {
          ColdColumn(j);
        }
        j := j + 1;
      }
      forall p, q | 0 <= p < size && 0 <= q < size
        ensures At(p, q) == StartFill(size, p, q) && main[p, q] == At(p, q).main && prev[p, q] == At(p, q).prev
        ensures locks[p, q] == At(p, q).lock
      {
      }
      forall c: Cell | Inside(size, c) ensures At(c.i, c.j) == StartFill(size, c.i, c.j) {
      }
    }

    /** What a sweep makes of a cell. */
    ghost function Next(i: int, j: int): real
      requires Valid() && 0 <= i < size && 0 <= j < size && Framed(size, Locked())
      reads main, prev, locks
    {
      if Cell(i, j) in Locked() then main[i, j] else Average(Contents(prev), Cell(i, j))
    }

    method UpdateCell(i: int, j: int)
      requires Valid() && 0 <= i < size && 0 <= j < size && Framed(size, Locked())
      modifies main
      ensures main[i, j] == old(Next(i, j))
      ensures forall p, q | 0 <= p < size && 0 <= q < size && (p != i || q != j) :: main[p, q] == old(main[p, q])
    {
      if locks[i, j] == '0' {
        assert Cell(i, j) !in Locked();
        main[i, j] := (prev[i + 1, j] + prev[i, j + 1] + prev[i - 1, j] + prev[i, j - 1] + 4.0 * prev[i, j]) * 0.125;
      }
    }

    /** The sweep of rows begin to end - 1 by update_plate. */
    method UpdateRows(begin: int, end: int)
      requires Valid() && 0 <= begin <= end <= size && Framed(size, Locked())
      modifies main
      ensures forall p, q | 0 <= p < size && 0 <= q < size ::
                main[p, q] == if begin <= p < end then old(Next(p, q)) else old(main[p, q])
      ensures begin == 0 && old(Contents(main)) == Contents(prev) ==>
                Contents(main) == Swept(size, Locked(), end, Contents(prev))
    {
      var i := begin;
      while i < end
        invariant begin <= i <= end
        invariant forall p, q | 0 <= p < size && 0 <= q < size ::
                    main[p, q] == if begin <= p < i then old(Next(p, q)) else old(main[p, q])
      {
        var j := 0;
        while j < size
          invariant 0 <= j <= size
          invariant forall p, q | 0 <= p < size && 0 <= q < size ::
                      main[p, q] == if begin <= p < i || (p == i && q < j) then old(Next(p, q)) else old(main[p, q])
        {
          UpdateCell(i, j);
          j := j + 1;
        }
        i := i + 1;
      }
      if begin == 0 && old(Contents(main)) == Contents(prev) {
        SweptFromTop(end);
      }
    }

    twostate lemma SweptFromTop(end: int)
      requires Valid() && 0 <= end <= size && old(Framed(size, Locked())) && unchanged(prev) && unchanged(locks)
      requires forall p, q | 0 <= p < size && 0 <= q < size ::
                 main[p, q] == if p < end then old(Next(p, q)) else old(main[p, q])
      requires old(Contents(main)) == Contents(prev)
      ensures Contents(main) == Swept(size, Locked(), end, Contents(prev))
    {
      forall c: Cell | Inside(size, c)
        ensures Contents(main)[c] == if c.i < end then Updated(size, Locked(), Contents(prev), c) else Contents(prev)[c]
      {
        assert old(main[c.i, c.j]) == old(Contents(main))[c];
      }
      SweptIs(size, Locked(), end, Contents(prev), Contents(main));
    }

    /** copy(main_plate, main_prev_plate). */
    method Copy()
      requires Valid()
      modifies prev
      ensures Contents(prev) == Contents(main)
    {
      var i := 0;
      while i < size
        invariant 0 <= i <= size
        invariant forall p, q | 0 <= p < i && 0 <= q < size :: prev[p, q] == main[p, q]
      {
        var j := 0;
        while j < size
          invariant 0 <= j <= size
          invariant forall p, q | 0 <= p <= i && 0 <= q < size && (p < i || q < j) :: prev[p, q] == main[p, q]
        {
          prev[i, j] := main[i, j];
          j := j + 1;
        }
        i := i + 1;
      }
    }

    /** The deviation that steady computes for one unlocked cell. */
    method Difference(i: int, j: int) returns (diff: real)
      requires Valid() && Framed(size, Locked()) && 0 <= i < size && 0 <= j < size && Cell(i, j) !in Locked()
      ensures diff == Deviation(Contents(main), Cell(i, j))
    {
      diff := main[i, j] - (main[i + 1, j] + main[i - 1, j] + main[i, j + 1] + main[i, j - 1]) * 0.25;
      if diff < 0.0 {
        diff := -diff;
      }
    }

    /** 1 as long as the plate is not steady. */
    method Steady() returns (r: int)
      requires Valid() && Framed(size, Locked())
      ensures r == if Calm(size, Locked(), Contents(main)) then 0 else 1
    {
      var mainDiff := 0.0;
      var i := 0;
      while i < size
        invariant 0 <= i <= size
        invariant mainDiff <= 0.1 <==> CalmBefore(i, 0)
      {
        var j := 0;
        while j < size
          invariant 0 <= j <= size
          invariant mainDiff <= 0.1 <==> CalmBefore(i, j)
        {
          if locks[i, j] == '0' {
            assert Cell(i, j) !in Locked();
            var diff := Difference(i, j);
            if diff > mainDiff {
              mainDiff := diff;
            }
          }
          CalmNext(i, j);
          j := j + 1;
        }
        CalmRow(i);
        i := i + 1;
      }
      assert CalmBefore(size, 0) <==> Calm(size, Locked(), Contents(main));
      return if mainDiff > 0.1 then 1 else 0;
    }

    ghost predicate CalmBefore(i: int, j: int)
      requires Valid() && Framed(size, Locked())
      reads main, locks
    {
      forall c: Cell | Inside(size, c) && c !in Locked() && Before(c, i, j) :: Deviation(Contents(main), c) <= 0.1
    }

    lemma CalmNext(i: int, j: int)
      requires Valid() && Framed(size, Locked()) && 0 <= i < size && 0 <= j < size
      ensures CalmBefore(i, j + 1) <==>
                CalmBefore(i, j) && (Cell(i, j) in Locked() || Deviation(Contents(main), Cell(i, j)) <= 0.1)
    {
      forall c: Cell ensures Before(c, i, j + 1) <==> Before(c, i, j) || c == Cell(i, j) {
      }
      assert Before(Cell(i, j), i, j + 1);
    }

    lemma CalmRow(i: int)
      requires Valid() && Framed(size, Locked())
      ensures CalmBefore(i, size) <==> CalmBefore(i + 1, 0)
    {
      forall c: Cell | Inside(size, c) ensures Before(c, i, size) <==> Before(c, i + 1, 0) {
      }
    }
  }

  /** Entries 2w and 2w + 1 bound the share of worker w: each begins where the one before it ends. */
  method AllocateWorkload(size: nat, nthreads: nat) returns (beginEnd: array<int>)
    requires nthreads > 0
    ensures beginEnd.Length == 2 * nthreads
    ensures forall k: nat | k < 2 * nthreads :: beginEnd[k] == Begin(size, nthreads, (k + 1) / 2)
  {
    beginEnd := new int[nthreads * 2];
    var step := size / nthreads;
    var begin, i := 0, 0;
    while i < nthreads * 2
      invariant 0 <= i <= nthreads * 2 && i % 2 == 0 && begin == i / 2 * step
      invariant forall k: nat | k < i :: beginEnd[k] == Begin(size, nthreads, (k + 1) / 2)
    {
      beginEnd[i] := begin;
      begin := begin + step;
      i := i + 1;
      beginEnd[i] := begin;
      i := i + 1;
    }
  }

  // ---- What initPlate sets up ----------------------------------------------------------------------

  ghost function StartGrid(size: nat): Grid { imap c: Cell | Inside(size, c) :: StartFill(size, c.i, c.j).main }

  ghost function StartLocks(size: nat): iset<Cell> {
    iset c: Cell | Inside(size, c) && StartFill(size, c.i, c.j).lock != '0'
  }

  /** The whole border is locked, so no sweep reads outside the grid, and all cells start in range. */
  lemma StartIsProper(size: nat)
    ensures IsGrid(size, StartGrid(size)) && Framed(size, StartLocks(size)) && Tempered(size, StartGrid(size))
  {
  }
}
