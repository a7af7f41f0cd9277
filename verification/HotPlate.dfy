/** Workers that sweep their shares of a plate between two barriers, and the main thread that copies
    the plate and tests it while they wait. */
module HotPlate {
  import opened PlateGrids
  import opened Runs

  datatype Setup = Setup(size: nat, n: nat, locked: iset<Cell>, plate: Grid)

  ghost predicate Proper(p: Setup) { p.n > 0 && Framed(p.size, p.locked) && IsGrid(p.size, p.plate) }

  datatype Pc =
    | Arrive1    // pthread_barrier_wait(&barrier_first)
    | Blocked1   // inside that call
    | Sweep      // worker: the two loops of update_plate
    | Arrive2    // pthread_barrier_wait(&barrier_second)
    | Blocked2
    | Copy       // main thread: copy(main_plate, main_prev_plate)
    | Check      // main thread: steady(main_plate)
    | Finished   // main thread: startUpdate has returned

  /** got counts the terms of the sum for the cell at (row, col) that have been read, acc is their sum. */
  datatype Worker = Worker(pc: Pc, row: int, col: int, got: nat, acc: real)

  /** iterations counts the phases before the current one. */
  datatype Boss = Boss(pc: Pc, row: int, col: int, diff: real, iterations: nat)

  datatype State = State(main: Grid, prev: Grid, workers: seq<Worker>, boss: Boss)

  /** Only locked cells lie in the rows that the division of the grid among the workers leaves over. */
  ghost predicate Covered(p: Setup)
    requires Proper(p)
  {
    forall c: Cell | Inside(p.size, c) && c.i >= p.size - p.size % p.n :: c in p.locked
  }

  lemma DivisibleIsCovered(p: Setup)
    requires Proper(p) && p.size % p.n <= 1
    ensures Covered(p)
  {
  }

  ghost predicate Init(p: Setup, s: State) {
    && s.main == p.plate && s.prev == p.plate
    && |s.workers| == p.n && (forall w | 0 <= w < p.n :: s.workers[w].pc == Arrive1)
    && s.boss == Boss(Arrive1, 0, 0, 0.0, 0)
  }

  /** The k-th term of the sum in update_plate, in the order of the source. */
  ghost function Term(g: Grid, c: Cell, k: nat): real
    requires Surrounded(g, c)
  {
    if k == 0 then g[Cell(c.i + 1, c.j)]
    else if k == 1 then g[Cell(c.i, c.j + 1)]
    else if k == 2 then g[Cell(c.i - 1, c.j)]
    else if k == 3 then g[Cell(c.i, c.j - 1)]
    else 4.0 * g[c]
  }

  ghost function WorkerAt(p: Setup, prev: Grid, w: nat, c: Worker): Worker
    requires Proper(p) && IsGrid(p.size, prev) && c.pc == Sweep && c.row >= 0 && c.col >= 0
  {
    if c.row >= Begin(p.size, p.n, w + 1) then c.(pc := Arrive2)
    else if c.col >= p.size then c.(row := c.row + 1, col := 0)
    else if c.row >= p.size || Cell(c.row, c.col) in p.locked then c.(col := c.col + 1)
    else if c.got < 5 then c.(acc := c.acc + Term(prev, Cell(c.row, c.col), c.got), got := c.got + 1)
    else c.(col := c.col + 1, got := 0, acc := 0.0)
  }

  /** Whether the next access of a sweeping worker is the write of a new value. */
  ghost predicate Writes(p: Setup, w: nat, c: Worker)
    requires p.n > 0
  {
    && c.pc == Sweep && c.row < Begin(p.size, p.n, w + 1)
    && Inside(p.size, Cell(c.row, c.col)) && Cell(c.row, c.col) !in p.locked && c.got >= 5
  }

  ghost predicate SweepStep(p: Setup, s: State, s': State, w: nat)
    requires Proper(p)
  {
    && w < |s.workers| && IsGrid(p.size, s.prev)
    && var c := s.workers[w];
       && c.pc == Sweep && c.row >= 0 && c.col >= 0
       && s' == s.(workers := s.workers[w := WorkerAt(p, s.prev, w, c)],
                   main := if Writes(p, w, c) then s.main[Cell(c.row, c.col) := c.acc * 0.125] else s.main)
  }

  ghost predicate ArriveStep(s: State, s': State, w: nat) {
    && w < |s.workers|
    && var c := s.workers[w];
       || (c.pc == Arrive1 && s' == s.(workers := s.workers[w := c.(pc := Blocked1)]))
       || (c.pc == Arrive2 && s' == s.(workers := s.workers[w := c.(pc := Blocked2)]))
  }

  ghost predicate AllAt(s: State, pc: Pc) {
    s.boss.pc == pc && forall w | 0 <= w < |s.workers| :: s.workers[w].pc == pc
  }

  /** The last arrival at a barrier releases everybody. */
  ghost predicate Release(p: Setup, s: State, s': State)
    requires p.n > 0
  {
    || (&& AllAt(s, Blocked1)
        && s' == s.(workers := seq(|s.workers|, w requires 0 <= w => Worker(Sweep, Begin(p.size, p.n, w), 0, 0, 0.0)),
                    boss := s.boss.(pc := Arrive2)))
    || (&& AllAt(s, Blocked2)
        && s' == s.(workers := seq(|s.workers|, w requires 0 <= w < |s.workers| => s.workers[w].(pc := Arrive1)),
                    boss := s.boss.(pc := Copy, row := 0, col := 0)))
  }

  ghost predicate CopyStep(p: Setup, s: State, s': State)
    requires Proper(p)
  {
    && s.boss.pc == Copy
    && var b := s.boss;
       if b.row >= p.size then s' == s.(boss := b.(pc := Check, row := 0, col := 0, diff := 0.0))
       else if b.col >= p.size then s' == s.(boss := b.(row := b.row + 1, col := 0))
       else Cell(b.row, b.col) in s.main
            && s' == s.(prev := s.prev[Cell(b.row, b.col) := s.main[Cell(b.row, b.col)]], boss := b.(col := b.col + 1))
  }

  ghost function Larger(x: real, y: real): real { if y > x then y else x }

  ghost predicate CheckStep(p: Setup, s: State, s': State)
    requires Proper(p)
  {
    && s.boss.pc == Check
    && var b := s.boss;
       if b.row >= p.size then
         s' == s.(boss := if b.diff > 0.1 then b.(pc := Arrive1, iterations := b.iterations + 1)
             else b.(pc := Finished))
       else if b.col >= p.size then s' == s.(boss := b.(row := b.row + 1, col := 0))
       else if Cell(b.row, b.col) in p.locked then s' == s.(boss := b.(col := b.col + 1))
       else Surrounded(s.main, Cell(b.row, b.col))
            && s' == s.(boss := b.(col := b.col + 1, diff := Larger(b.diff, Deviation(s.main, Cell(b.row, b.col)))))
  }

  ghost predicate BossArrives(s: State, s': State) {
    || (s.boss.pc == Arrive1 && s' == s.(boss := s.boss.(pc := Blocked1)))
    || (s.boss.pc == Arrive2 && s' == s.(boss := s.boss.(pc := Blocked2)))
  }

  ghost predicate WorkerMoves(p: Setup, s: State, s': State, w: nat)
    requires Proper(p)
  {
    SweepStep(p, s, s', w) || ArriveStep(s, s', w)
  }

  ghost predicate Next(p: Setup, s: State, s': State) {
    && Proper(p)
    && (|| (exists w: nat :: WorkerMoves(p, s, s', w))
        || Release(p, s, s') || BossArrives(s, s') || CopyStep(p, s, s') || CheckStep(p, s, s'))
  }

  ghost predicate Moves(p: Setup, s: State) { exists s' :: Next(p, s, s') }

  ghost predicate Run(p: Setup, run: seq<State>) {
    IsRun((s: State) => Init(p, s), (s: State, s': State) => Next(p, s, s'), run)
  }

  // ---- The phases ----------------------------------------------------------------------------------

  /** The plate after k phases. */
  ghost function After(p: Setup, k: nat): (r: Grid)
    requires Proper(p)
    ensures IsGrid(p.size, r)
  {
    Phases(p.size, p.locked, Begin(p.size, p.n, p.n), p.plate, k)
  }

  ghost predicate Mine(p: Setup, w: nat, c: Cell)
    requires p.n > 0
  {
    Begin(p.size, p.n, w) <= c.i < Begin(p.size, p.n, w + 1)
  }

  ghost predicate DoneBy(k: Worker, c: Cell) { k.pc != Sweep || Before(c, k.row, k.col) }

  /** The sum of the first k terms for a cell. */
  ghost function Partial(g: Grid, c: Cell, k: nat): real
    requires Surrounded(g, c)
  {
    if k == 0 then 0.0 else Partial(g, c, k - 1) + Term(g, c, k - 1)
  }

  ghost predicate WorkerOk(p: Setup, prev: Grid, w: nat, k: Worker)
    requires Proper(p) && IsGrid(p.size, prev)
  {
    k.pc == Sweep ==>
      && Begin(p.size, p.n, w) <= k.row <= Begin(p.size, p.n, w + 1) && 0 <= k.col <= p.size && k.got <= 5
      && (k.got > 0 ==>
            k.row < Begin(p.size, p.n, w + 1) && k.row < p.size && k.col < p.size && Cell(k.row, k.col) !in p.locked)
      && k.acc == if k.got > 0 then Partial(prev, Cell(k.row, k.col), k.got) else 0.0
  }

  ghost predicate Waiting(s: State) {
    forall w | 0 <= w < |s.workers| :: s.workers[w].pc == Arrive1 || s.workers[w].pc == Blocked1
  }

  ghost predicate Working(s: State) {
    forall w | 0 <= w < |s.workers| :: s.workers[w].pc == Sweep || s.workers[w].pc == Arrive2
        || s.workers[w].pc == Blocked2
  }

  /** Each worker has updated exactly the cells of its share that lie behind its cursor. */
  ghost predicate Shared(p: Setup, s: State)
    requires Proper(p) && IsGrid(p.size, s.prev) && IsGrid(p.size, s.main) && |s.workers| == p.n
  {
    && (forall w: nat | w < p.n :: WorkerOk(p, s.prev, w, s.workers[w]))
    && (forall w: nat, c: Cell | w < p.n && Inside(p.size, c) && Mine(p, w, c) ::
          s.main[c] == if DoneBy(s.workers[w], c) then Updated(p.size, p.locked, s.prev, c) else s.prev[c])
    && (forall c: Cell | Inside(p.size, c) && c.i >= Begin(p.size, p.n, p.n) :: s.main[c] == s.prev[c])
  }

  ghost predicate Shape(p: Setup, s: State) {
    && Proper(p) && IsGrid(p.size, s.main) && IsGrid(p.size, s.prev) && |s.workers| == p.n
    && 0 <= s.boss.row <= p.size && 0 <= s.boss.col <= p.size
  }

  /** The test has found the largest deviation among the cells behind its cursor. */
  ghost predicate Measured(p: Setup, s: State)
    requires Shape(p, s)
  {
    s.boss.diff <= 0.1 <==>
      forall c: Cell | Inside(p.size, c) && c !in p.locked && Before(c, s.boss.row, s.boss.col) ::
          Deviation(s.main, c) <= 0.1
  }

  /** Where the threads are, given the plates before and after the current phase. */
  ghost predicate InPhase(p: Setup, s: State, last: Grid, now: Grid) {
    && Shape(p, s) && IsGrid(p.size, last) && IsGrid(p.size, now)
    && match s.boss.pc
       case Arrive1 | Blocked1 => Waiting(s) && s.main == s.prev == last
       case Sweep => false
       case Arrive2 | Blocked2 => Working(s) && s.prev == last && Shared(p, s)
       case Copy =>
         && Waiting(s) && s.main == now
         && forall c: Cell | Inside(p.size, c) ::
              s.prev[c] == if Before(c, s.boss.row, s.boss.col) then now[c] else last[c]
       case Check => Waiting(s) && s.main == s.prev == now && Measured(p, s)
       case Finished => Waiting(s) && s.main == s.prev == now && Calm(p.size, p.locked, now)
  }

  // ---- Every step keeps the invariant --------------------------------------------------------------

  lemma TermsMakeAverage(g: Grid, c: Cell)
    requires Surrounded(g, c)
    ensures Partial(g, c, 5) * 0.125 == Average(g, c)
  {
    assert Partial(g, c, 1) == Term(g, c, 0);
    assert Partial(g, c, 2) == Partial(g, c, 1) + Term(g, c, 1);
    assert Partial(g, c, 3) == Partial(g, c, 2) + Term(g, c, 2);
    assert Partial(g, c, 4) == Partial(g, c, 3) + Term(g, c, 3);
    assert Partial(g, c, 5) == Partial(g, c, 4) + Term(g, c, 4);
  }

  /** A read adds the next term, a write stores the average. */
  lemma WorkerOkKept(p: Setup, prev: Grid, w: nat, k: Worker)
    requires Proper(p) && IsGrid(p.size, prev) && w < p.n && k.pc == Sweep && WorkerOk(p, prev, w, k)
    ensures WorkerOk(p, prev, w, WorkerAt(p, prev, w, k))
    ensures Writes(p, w, k) ==> k.acc * 0.125 == Average(prev, Cell(k.row, k.col))
  {
    SharesAreDisjoint(p.size, p.n, w, p.n);
    if Writes(p, w, k) {
      TermsMakeAverage(prev, Cell(k.row, k.col));
    }
  }

  /** A step of worker w leaves the other shares alone. */
  lemma OtherCell(p: Setup, s: State, s': State, w: nat, v: nat, c: Cell)
    requires Shape(p, s) && SweepStep(p, s, s', w) && v < p.n && v != w && Inside(p.size, c) && Mine(p, v, c)
    requires WorkerOk(p, s.prev, w, s.workers[w])
    ensures s'.main[c] == s.main[c] && s'.workers[v] == s.workers[v]
  {
    if v < w {
      SharesAreDisjoint(p.size, p.n, v, w);
    } else {
      SharesAreDisjoint(p.size, p.n, w, v);
    }
  }

  /** At its cursor it leaves the cells of every share as they should be. */
  lemma SweepCell(p: Setup, s: State, s': State, w: nat, v: nat, c: Cell)
    requires Shape(p, s) && SweepStep(p, s, s', w) && v < p.n && Inside(p.size, c) && Mine(p, v, c)
    requires WorkerOk(p, s.prev, w, s.workers[w])
    requires s.main[c] == if DoneBy(s.workers[v], c) then Updated(p.size, p.locked, s.prev, c) else s.prev[c]
    ensures s'.main[c] == if DoneBy(s'.workers[v], c) then Updated(p.size, p.locked, s.prev, c) else s.prev[c]
  {
    if v != w {
      OtherCell(p, s, s', w, v, c);
    } else {
      WorkerOkKept(p, s.prev, w, s.workers[w]);
    }
  }

  lemma SweepKeeps(p: Setup, s: State, s': State, w: nat)
    requires Shape(p, s) && Shared(p, s) && Working(s) && SweepStep(p, s, s', w)
    ensures Shape(p, s') && Working(s') && Shared(p, s')
  {
    WorkerOkKept(p, s.prev, w, s.workers[w]);
    SharesAreDisjoint(p.size, p.n, w, p.n);
    forall v: nat, c: Cell | v < p.n && Inside(p.size, c) && Mine(p, v, c)
      ensures s'.main[c] == if DoneBy(s'.workers[v], c) then Updated(p.size, p.locked, s.prev, c) else s.prev[c]
    {
      SweepCell(p, s, s', w, v, c);
    }
  }

  /** All workers past the sweep: together they have made one phase. */
  lemma SweepDone(p: Setup, s: State)
    requires Shape(p, s) && Shared(p, s) && (forall w | 0 <= w < p.n :: s.workers[w].pc != Sweep)
    ensures s.main == Swept(p.size, p.locked, Begin(p.size, p.n, p.n), s.prev)
  {
    var r := Swept(p.size, p.locked, Begin(p.size, p.n, p.n), s.prev);
    forall c: Cell | c in r ensures s.main[c] == r[c] {
      if c.i < Begin(p.size, p.n, p.n) {
        var w := RowHasOwner(p.size, p.n, c.i);
        assert Mine(p, w, c);
        assert DoneBy(s.workers[w], c);
      }
    }
  }

  lemma Release1Keeps(p: Setup, s: State, s': State, last: Grid, now: Grid)
    requires InPhase(p, s, last, now) && AllAt(s, Blocked1) && Release(p, s, s')
    ensures InPhase(p, s', last, now)
  {
    forall w: nat, c: Cell | w < p.n && Inside(p.size, c) && Mine(p, w, c)
      ensures !DoneBy(s'.workers[w], c)
    {
    }
    forall w: nat | w < p.n ensures WorkerOk(p, s'.prev, w, s'.workers[w]) {
      SharesAreDisjoint(p.size, p.n, w, w + 1);
    }
  }

  lemma Release2Keeps(p: Setup, s: State, s': State, last: Grid, now: Grid)
    requires InPhase(p, s, last, now) && AllAt(s, Blocked2) && Release(p, s, s')
    requires now == Swept(p.size, p.locked, Begin(p.size, p.n, p.n), last)
    ensures InPhase(p, s', last, now)
  {
    SweepDone(p, s);
  }

  lemma CopyKeeps(p: Setup, s: State, s': State, last: Grid, now: Grid)
    requires InPhase(p, s, last, now) && CopyStep(p, s, s')
    ensures InPhase(p, s', last, now)
  {
    if s.boss.row >= p.size {
      assert forall c: Cell | c in s.prev :: Before(c, s.boss.row, s.boss.col);
      assert s.prev == s.main;
    }
  }

  lemma CheckKeeps(p: Setup, s: State, s': State, last: Grid, now: Grid, next: Grid)
    requires InPhase(p, s, last, now) && CheckStep(p, s, s') && IsGrid(p.size, next)
    ensures if s'.boss.pc == Arrive1 then s'.boss.iterations == s.boss.iterations + 1 && InPhase(p, s', now, next)
            else s'.boss.iterations == s.boss.iterations && InPhase(p, s', last, now)
    ensures s'.boss.pc == Arrive1 ==> !Calm(p.size, p.locked, now)
  {
    if s.boss.row >= p.size {
      MeasuredAll(p, s, now);
    } else {
      MeasuredKept(p, s, s');
    }
  }

  lemma MeasuredAll(p: Setup, s: State, now: Grid)
    requires Shape(p, s) && Measured(p, s) && s.boss.row >= p.size && s.main == now
    ensures s.boss.diff <= 0.1 <==> Calm(p.size, p.locked, now)
  {
    assert forall c: Cell | Inside(p.size, c) :: Before(c, s.boss.row, s.boss.col);
  }

  lemma MeasuredKept(p: Setup, s: State, s': State)
    requires Shape(p, s) && Measured(p, s) && CheckStep(p, s, s') && s.boss.row < p.size
    ensures Shape(p, s') && Measured(p, s')
  {
    var here := Cell(s.boss.row, s.boss.col);
    forall c: Cell | Inside(p.size, c)
      ensures Before(c, s'.boss.row, s'.boss.col)
          <==> Before(c, s.boss.row, s.boss.col) || (s.boss.col < p.size && c == here)
    {
    }
  }

  lemma ArriveKeeps(p: Setup, s: State, s': State, w: nat, last: Grid, now: Grid)
    requires InPhase(p, s, last, now) && ArriveStep(s, s', w)
    ensures InPhase(p, s', last, now)
  {
    if s.workers[w].pc == Arrive2 {
      assert forall v: nat, c: Cell | v < p.n :: DoneBy(s'.workers[v], c) <==> DoneBy(s.workers[v], c);
    }
  }

  lemma WorkerKeeps(p: Setup, s: State, s': State, w: nat, last: Grid, now: Grid)
    requires InPhase(p, s, last, now) && WorkerMoves(p, s, s', w)
    ensures InPhase(p, s', last, now) && s'.boss == s.boss
  {
    if SweepStep(p, s, s', w) {
      SweepKeeps(p, s, s', w);
    } else {
      ArriveKeeps(p, s, s', w, last, now);
    }
  }

  lemma ReleaseKeeps(p: Setup, s: State, s': State, last: Grid, now: Grid)
    requires InPhase(p, s, last, now) && Release(p, s, s')
    requires now == Swept(p.size, p.locked, Begin(p.size, p.n, p.n), last)
    ensures InPhase(p, s', last, now) && s'.boss.iterations == s.boss.iterations
  {
    if AllAt(s, Blocked1) {
      Release1Keeps(p, s, s', last, now);
    } else {
      Release2Keeps(p, s, s', last, now);
    }
  }

  lemma BossArrivesKeeps(p: Setup, s: State, s': State, last: Grid, now: Grid)
    requires InPhase(p, s, last, now) && BossArrives(s, s')
    ensures InPhase(p, s', last, now) && s'.boss.iterations == s.boss.iterations
  {
  }

  lemma StepKeeps(p: Setup, s: State, s': State, last: Grid, now: Grid)
    requires InPhase(p, s, last, now) && Next(p, s, s') && !CheckStep(p, s, s')
    requires now == Swept(p.size, p.locked, Begin(p.size, p.n, p.n), last)
    ensures InPhase(p, s', last, now) && s'.boss.iterations == s.boss.iterations
  {
    if w: nat :| WorkerMoves(p, s, s', w) {
      WorkerKeeps(p, s, s', w, last, now);
    } else if Release(p, s, s') {
      ReleaseKeeps(p, s, s', last, now);
    } else if CopyStep(p, s, s') {
      CopyKeeps(p, s, s', last, now);
    } else {
      BossArrivesKeeps(p, s, s', last, now);
    }
  }

  ghost predicate OneSweep(p: Setup, last: Grid, now: Grid) {
    Proper(p) && IsGrid(p.size, last) && now == Swept(p.size, p.locked, Begin(p.size, p.n, p.n), last)
  }

  ghost predicate Restless(p: Setup, plate: Grid) {
    Proper(p) && IsGrid(p.size, plate) && !Calm(p.size, p.locked, plate)
  }

  lemma NextPhase(p: Setup, s: State, s': State, last: Grid, now: Grid, next: Grid)
    requires InPhase(p, s, last, now) && Next(p, s, s')
    requires OneSweep(p, last, now) && OneSweep(p, now, next)
    ensures if s'.boss.iterations == s.boss.iterations then InPhase(p, s', last, now)
            else s'.boss.iterations == s.boss.iterations + 1 && InPhase(p, s', now, next) && Restless(p, now)
  {
    if CheckStep(p, s, s') {
      CheckKeeps(p, s, s', last, now, next);
    } else {
      StepKeeps(p, s, s', last, now);
    }
  }

  // ---- Whole runs ----------------------------------------------------------------------------------

  lemma NotStuck(p: Setup, s: State, last: Grid, now: Grid)
    requires InPhase(p, s, last, now)
    ensures s.boss.pc == Finished || Moves(p, s)
  {
    if w: nat :| w < p.n && (s.workers[w].pc == Arrive1 || s.workers[w].pc == Arrive2) {
      var pc' := if s.workers[w].pc == Arrive1 then Blocked1 else Blocked2;
      var s' := s.(workers := s.workers[w := s.workers[w].(pc := pc')]);
      assert ArriveStep(s, s', w);
      assert WorkerMoves(p, s, s', w) && Next(p, s, s');
    } else if w: nat :| w < p.n && s.workers[w].pc == Sweep {
      SweepMoves(p, s, w);
    } else if s.boss.pc != Finished {
      BossMoves(p, s);
    }
  }

  lemma SweepMoves(p: Setup, s: State, w: nat)
    requires Shape(p, s) && w < p.n && s.workers[w].pc == Sweep && WorkerOk(p, s.prev, w, s.workers[w])
    ensures Moves(p, s)
  {
    var c := s.workers[w];
    var s' := s.(workers := s.workers[w := WorkerAt(p, s.prev, w, c)],
                 main := if Writes(p, w, c) then s.main[Cell(c.row, c.col) := c.acc * 0.125] else s.main);
    assert SweepStep(p, s, s', w);
    assert WorkerMoves(p, s, s', w) && Next(p, s, s');
  }

  lemma BossMoves(p: Setup, s: State)
    requires Shape(p, s) && s.boss.pc != Finished && s.boss.pc != Sweep
    requires s.boss.pc == Blocked1 || s.boss.pc == Blocked2 ==> AllAt(s, s.boss.pc)
    ensures Moves(p, s)
  {
    var b := s.boss;
    match b.pc
    case Arrive1 => assert Next(p, s, s.(boss := b.(pc := Blocked1)));
    case Arrive2 => assert Next(p, s, s.(boss := b.(pc := Blocked2)));
    case Blocked1 =>
      var s' := s.(workers := seq(|s.workers|, w requires 0 <= w => Worker(Sweep, Begin(p.size, p.n, w), 0, 0, 0.0)),
                   boss := b.(pc := Arrive2));
      assert Release(p, s, s') && Next(p, s, s');
    case Blocked2 =>
      var s' := s.(workers := seq(|s.workers|, w requires 0 <= w < |s.workers| => s.workers[w].(pc := Arrive1)),
                   boss := b.(pc := Copy, row := 0, col := 0));
      assert Release(p, s, s') && Next(p, s, s');
    case Copy =>
      var s' := if b.row >= p.size then s.(boss := b.(pc := Check, row := 0, col := 0, diff := 0.0))
                else if b.col >= p.size then s.(boss := b.(row := b.row + 1, col := 0))
                else s.(prev := s.prev[Cell(b.row, b.col) := s.main[Cell(b.row, b.col)]], boss := b.(col := b.col + 1));
      assert CopyStep(p, s, s') && Next(p, s, s');
    case Check =>
      var s' := if b.row >= p.size then
                  s.(boss := if b.diff > 0.1 then b.(pc := Arrive1, iterations := b.iterations + 1)
                      else b.(pc := Finished))
                else if b.col >= p.size then s.(boss := b.(row := b.row + 1, col := 0))
                else if Cell(b.row, b.col) in p.locked then s.(boss := b.(col := b.col + 1))
                else s.(boss := b.(col := b.col + 1, diff := Larger(b.diff, Deviation(s.main, Cell(b.row, b.col)))));
      assert CheckStep(p, s, s') && Next(p, s, s');
    case _ =>
  }

  ghost function Count(s: State): nat { s.boss.iterations }

  /** A cell of the plate holds its value before or after the current phase. */
  ghost predicate Settled(p: Setup, g: Grid, last: Grid, now: Grid) {
    && IsGrid(p.size, g) && IsGrid(p.size, last) && IsGrid(p.size, now)
    && forall c: Cell | Inside(p.size, c) :: g[c] == last[c] || g[c] == now[c]
  }

  /** The main thread copies or tests: nobody sweeps then. */
  ghost predicate Exclusive(s: State) {
    s.boss.pc == Copy || s.boss.pc == Check || s.boss.pc == Finished ==> Waiting(s)
  }

  lemma Consequences(p: Setup, s: State, last: Grid, now: Grid)
    requires InPhase(p, s, last, now) && OneSweep(p, last, now)
    ensures Exclusive(s)
    ensures s.boss.pc == Finished ==> s.main == now && Calm(p.size, p.locked, now)
    ensures s.boss.pc == Finished || Moves(p, s)
  {
    NotStuck(p, s, last, now);
  }

  lemma EveryCellSettled(p: Setup, s: State, last: Grid, now: Grid)
    requires InPhase(p, s, last, now) && OneSweep(p, last, now)
    ensures Settled(p, s.main, last, now) && Settled(p, s.prev, last, now)
  {
    if s.boss.pc == Arrive2 || s.boss.pc == Blocked2 {
      forall c: Cell | Inside(p.size, c) ensures s.main[c] == last[c] || s.main[c] == now[c] {
        if c.i < Begin(p.size, p.n, p.n) {
          var w := RowHasOwner(p.size, p.n, c.i);
          assert Mine(p, w, c);
        }
      }
    }
  }

  lemma InitPhase(p: Setup, s: State, last: Grid, now: Grid)
    requires Init(p, s) && OneSweep(p, last, now) && last == p.plate
    ensures InPhase(p, s, last, now)
  {
  }

  /** In every state of every run, the current phase leads from the plate after the completed phases to
      the next one, and no completed phase has made the plate steady. */
  lemma {:induction false} EveryPhase(p: Setup, plates: nat -> Grid, run: seq<State>, i: nat)
    returns (last: Grid, now: Grid)
    requires Run(p, run) && i < |run|
    requires plates(0) == p.plate && forall k: nat :: OneSweep(p, plates(k), plates(k + 1))
    ensures InPhase(p, run[i], last, now)
    ensures last == plates(Count(run[i])) && now == plates(Count(run[i]) + 1)
    ensures forall j: nat | 1 <= j <= Count(run[i]) :: Restless(p, plates(j))
  {
    if i == 0 {
      last, now := plates(0), plates(1);
      assert OneSweep(p, plates(0), plates(0 + 1));
      InitPhase(p, run[0], last, now);
    } else {
      last, now := EveryPhase(p, plates, run, i - 1);
      var k := Count(run[i - 1]);
      var next := plates(k + 2);
      assert OneSweep(p, plates(k), plates(k + 1)) && OneSweep(p, plates(k + 1), plates(k + 1 + 1));
      NextPhase(p, run[i - 1], run[i], last, now, next);
      if Count(run[i]) != k {
        last, now := now, next;
      }
    }
  }

  /** The plates that runs go through: k phases after the initial one. */
  ghost function Plates(p: Setup): nat -> Grid
    requires Proper(p)
  {
    (k: nat) => After(p, k)
  }

  /** What a state of a run says about the plates before and after its current phase. */
  ghost predicate Sane(p: Setup, s: State, last: Grid, now: Grid) {
    && Exclusive(s) && Settled(p, s.main, last, now) && Settled(p, s.prev, last, now)
    && (s.boss.pc == Finished ==> Proper(p) && s.main == now && Calm(p.size, p.locked, now))
    && (s.boss.pc == Finished || Moves(p, s))
  }

  /** In every state of every run: no worker sweeps while the main thread copies or tests; every cell holds
      its value before or after the current phase; somebody can move until the update has returned, and
      then the plate is the first steady one. */
  lemma EveryState(p: Setup, run: seq<State>, i: nat)
    requires Proper(p) && Run(p, run) && i < |run|
    ensures Sane(p, run[i], After(p, Count(run[i])), After(p, Count(run[i]) + 1))
    ensures forall j: nat | 1 <= j <= Count(run[i]) :: Restless(p, After(p, j))
  {
    var plates, k := Plates(p), Count(run[i]);
    forall j: nat ensures OneSweep(p, plates(j), plates(j + 1)) {
    }
    var last, now := EveryPhase(p, plates, run, i);
    assert OneSweep(p, plates(k), plates(k + 1));
    Consequences(p, run[i], last, now);
    EveryCellSettled(p, run[i], last, now);
    forall j: nat | 1 <= j <= k ensures Restless(p, After(p, j)) {
      assert Restless(p, plates(j));
    }
  }

  lemma LockedKept(p: Setup, g: Grid, k: nat, c: Cell)
    requires Proper(p) && Settled(p, g, After(p, k), After(p, k + 1)) && Inside(p.size, c) && c in p.locked
    ensures g[c] == p.plate[c]
  {
    PhasesLocked(p.size, p.locked, Begin(p.size, p.n, p.n), p.plate, k, c);
    PhasesLocked(p.size, p.locked, Begin(p.size, p.n, p.n), p.plate, k + 1, c);
  }

  lemma RangeKept(p: Setup, g: Grid, k: nat, c: Cell)
    requires Proper(p) && Settled(p, g, After(p, k), After(p, k + 1)) && Inside(p.size, c) && Tempered(p.size, p.plate)
    ensures 0.0 <= g[c] <= 100.0
  {
    PhasesTempered(p.size, p.locked, Begin(p.size, p.n, p.n), p.plate, k);
    PhasesTempered(p.size, p.locked, Begin(p.size, p.n, p.n), p.plate, k + 1);
  }

  /** No run changes a locked cell or leaves the range from 0 to 100, in either plate. */
  lemma CellsKept(p: Setup, run: seq<State>, i: nat, c: Cell)
    requires Proper(p) && Run(p, run) && i < |run| && Inside(p.size, c)
    ensures c in run[i].main && c in run[i].prev
    ensures c in p.locked ==> run[i].main[c] == run[i].prev[c] == p.plate[c]
    ensures Tempered(p.size, p.plate) ==> 0.0 <= run[i].main[c] <= 100.0 && 0.0 <= run[i].prev[c] <= 100.0
  {
    EveryState(p, run, i);
    if c in p.locked {
      LockedKept(p, run[i].main, Count(run[i]), c);
      LockedKept(p, run[i].prev, Count(run[i]), c);
    }
    if Tempered(p.size, p.plate) {
      RangeKept(p, run[i].main, Count(run[i]), c);
      RangeKept(p, run[i].prev, Count(run[i]), c);
    }
  }

  /** k Jacobi steps of the whole plate by one thread. */
  ghost function Sequential(p: Setup, k: nat): (r: Grid)
    requires Proper(p)
    ensures IsGrid(p.size, r)
  {
    if k == 0 then p.plate else Jacobi(p.size, p.locked, Sequential(p, k - 1))
  }

  lemma {:induction false} PhasesAreSteps(p: Setup, k: nat)
    requires Proper(p) && Covered(p)
    ensures After(p, k) == Sequential(p, k)
  {
    if k > 0 {
      PhasesAreSteps(p, k - 1);
      CoveredStep(p.size, p.n, p.locked, After(p, k - 1));
    }
  }

  lemma Ending(p: Setup, plates: nat -> Grid, run: seq<State>) returns (k: nat)
    requires Run(p, run) && run[|run| - 1].boss.pc == Finished
    requires plates(0) == p.plate && forall k: nat :: OneSweep(p, plates(k), plates(k + 1))
    ensures k >= 1 && run[|run| - 1].main == plates(k)
    ensures forall j: nat | 1 <= j <= k :: Restless(p, plates(j)) <==> j < k
  {
    var last, now := EveryPhase(p, plates, run, |run| - 1);
    var c := Count(run[|run| - 1]);
    assert OneSweep(p, plates(c), plates(c + 1));
    Consequences(p, run[|run| - 1], last, now);
    k := c + 1;
  }

  /** The plates that a single thread would go through. */
  ghost function Steps(p: Setup): nat -> Grid
    requires Proper(p)
  {
    (k: nat) => Sequential(p, k)
  }

  lemma StepByStep(p: Setup, k: nat)
    requires Proper(p) && Covered(p)
    ensures OneSweep(p, Steps(p)(k), Steps(p)(k + 1))
  {
    CoveredStep(p.size, p.n, p.locked, Sequential(p, k));
  }

  /** A run that has ended leaves the first steady plate of the sequential computation, if no unlocked cell
      lies in the leftover rows. */
  lemma FinalState(p: Setup, run: seq<State>) returns (k: nat)
    requires Proper(p) && Covered(p)
    requires Run(p, run) && run[|run| - 1].boss.pc == Finished
    ensures k >= 1 && run[|run| - 1].main == Steps(p)(k)
    ensures forall j: nat | 1 <= j <= k :: Restless(p, Steps(p)(j)) <==> j < k
  {
    forall j: nat ensures OneSweep(p, Steps(p)(j), Steps(p)(j + 1)) {
      StepByStep(p, j);
    }
    k := Ending(p, Steps(p), run);
  }
}
