/** Whether the update of the plate returns: with the leftover rows locked every run ends, otherwise there
    are plates that never become steady. */
module PlateRuns {
  import opened Arithmetic
  import opened HotPlate
  import PlateArrays
  import opened PlateEnergy
  import opened PlateGrids
  import opened Runs
  import opened Sums

  // ---- How many phases -----------------------------------------------------------------------------

  lemma {:induction false} Drops(e: nat -> real, k: nat)
    requires e(1) <= e(0) && forall j: nat | 1 <= j <= k :: e(j + 1) <= e(j) - 0.01
    ensures e(k + 1) <= e(0) - 0.01 * k as real
  {
    if k > 0 {
      Drops(e, k - 1);
    }
  }

  ghost function Energies(p: Setup): nat -> real
    requires Proper(p)
  {
    (k: nat) => Energy(p.size, Sequential(p, k))
  }

  /** The energy never grows, and a sweep of a plate that is not steady costs 0.01. */
  lemma EnergyDrops(p: Setup, k: nat)
    requires Proper(p)
    ensures Energies(p)(k + 1) <= Energies(p)(k)
    ensures Restless(p, Steps(p)(k)) ==> Energies(p)(k + 1) <= Energies(p)(k) - 0.01
  {
    PlateEnergy.StepKeeps(p.size, p.locked, Sequential(p, k));
    if Restless(p, Steps(p)(k)) {
      RestlessDrops(p.size, p.locked, Sequential(p, k));
    }
  }

  lemma RestlessPlates(p: Setup, k: nat)
    requires Proper(p) && forall j: nat | 1 <= j <= k :: Restless(p, Steps(p)(j))
    ensures k as real <= 100.0 * Energy(p.size, p.plate)
  {
    var e := Energies(p);
    forall j: nat ensures e(j + 1) <= e(j) && (1 <= j <= k ==> e(j + 1) <= e(j) - 0.01) {
      EnergyDrops(p, j);
    }
    assert e(0 + 1) <= e(0);
    Drops(e, k);
    EnergyNotNegative(p.size, Sequential(p, k + 1));
    assert e(0) == Energy(p.size, p.plate) && e(k + 1) >= 0.0;
  }

  /** No run has more phases before its last one than the energy of the plate pays for. */
  lemma PhasesBounded(p: Setup, run: seq<State>, i: nat)
    requires Proper(p) && Covered(p) && Run(p, run) && i < |run|
    ensures Count(run[i]) as real <= 100.0 * Energy(p.size, p.plate)
  {
    forall j: nat ensures OneSweep(p, Steps(p)(j), Steps(p)(j + 1)) {
      StepByStep(p, j);
    }
    var last, now := EveryPhase(p, Steps(p), run, i);
    RestlessPlates(p, Count(run[i]));
  }

  // ---- How many steps in a phase -----------------------------------------------------------------

  /** What is left of a sweep at (row, col) with got terms read, at most. */
  function SweepLeft(size: nat, row: int, col: int, got: int): int {
    (size - row + 1) * (6 * size + 1) - (6 * col + got)
  }

  function SweepMost(size: nat): nat { (size + 1) * (6 * size + 1) }

  function Weight(size: nat, k: Worker): int {
    match k.pc
    case Arrive1 => SweepMost(size) + 4
    case Blocked1 => SweepMost(size) + 3
    case Sweep => 2 + SweepLeft(size, k.row, k.col, k.got)
    case Arrive2 => 1
    case _ => 0
  }

  ghost function Weights(size: nat): Worker -> int { (k: Worker) => Weight(size, k) }

  function ScanLeft(size: nat, row: int, col: int): int { (size - row) * (size + 1) + size - col }

  function ScanMost(size: nat): nat { (size + 1) * (size + 1) }

  function BossWeight(size: nat, n: nat, b: Boss): int {
    var scans := 2 * ScanMost(size) + n * (SweepMost(size) + 4);
    match b.pc
    case Arrive1 => scans + 7
    case Blocked1 => scans + 6
    case Arrive2 => scans + 5
    case Blocked2 => scans + 4
    case Copy => ScanMost(size) + 2 + ScanLeft(size, b.row, b.col)
    case Check => 1 + ScanLeft(size, b.row, b.col)
    case _ => 0
  }

  /** Steps that the current phase still allows. */
  ghost function Left(p: Setup, s: State): int {
    BossWeight(p.size, p.n, s.boss) + Sum(Weights(p.size), s.workers)
  }

  /** More than the steps of one phase. */
  function PhaseMost(size: nat, n: nat): nat { 2 * ScanMost(size) + 2 * (n * (SweepMost(size) + 4)) + 8 }

  lemma ScanInRange(size: nat, row: int, col: int)
    requires 0 <= row <= size && 0 <= col <= size
    ensures 0 <= ScanLeft(size, row, col) < ScanMost(size)
  {
    MulMonotone(size + 1, 0, size - row);
    MulMonotone(size + 1, size - row, size);
  }

  lemma SweepInRange(size: nat, row: int, col: int, got: int)
    requires 0 <= row <= size && 0 <= col <= size && 0 <= got <= 5 && (got > 0 ==> col < size)
    ensures 0 <= SweepLeft(size, row, col, got) <= SweepMost(size)
  {
    MulMonotone(6 * size + 1, 1, size - row + 1);
    MulMonotone(6 * size + 1, size - row + 1, size + 1);
  }

  lemma NextRow(size: nat, row: int)
    ensures SweepLeft(size, row + 1, 0, 0) == SweepLeft(size, row, size, 0) - 1
    ensures ScanLeft(size, row + 1, 0) == ScanLeft(size, row, size) - 1
  {
  }

  lemma WeightInRange(p: Setup, prev: Grid, w: nat, k: Worker)
    requires Proper(p) && IsGrid(p.size, prev) && w < p.n && WorkerOk(p, prev, w, k)
    ensures 0 <= Weight(p.size, k) <= SweepMost(p.size) + 4
  {
    if k.pc == Sweep {
      SharesAreDisjoint(p.size, p.n, w, p.n);
      SweepInRange(p.size, k.row, k.col, k.got);
    }
  }

  /** How the cursor of a sweep moves. */
  predicate Forward(size: nat, k: Worker, k': Worker) {
    || k'.pc == Arrive2
    || (k'.pc == Sweep && k.col >= size && k'.row == k.row + 1 && k'.col == k'.got == 0)
    || (k'.pc == Sweep && k'.row == k.row && k'.col == k.col + 1 && k'.got == 0)
    || (k'.pc == Sweep && k'.row == k.row && k'.col == k.col && k'.got == k.got + 1)
  }

  lemma MovesForward(p: Setup, prev: Grid, w: nat, k: Worker)
    requires Proper(p) && IsGrid(p.size, prev) && w < p.n && WorkerOk(p, prev, w, k) && k.pc == Sweep
    ensures Forward(p.size, k, WorkerAt(p, prev, w, k))
  {
  }

  lemma WeightDrops(size: nat, k: Worker, k': Worker)
    requires k.pc == Sweep && 0 <= k.row <= size && 0 <= k.col <= size && 0 <= k.got <= 5
        && (k.got > 0 ==> k.col < size)
    requires Forward(size, k, k')
    ensures Weight(size, k') < Weight(size, k)
  {
    SweepInRange(size, k.row, k.col, k.got);
    NextRow(size, k.row);
  }

  // ---- Every step but the last of a phase uses some of it up --------------------------------------------

  lemma SweepSpends(p: Setup, s: State, s': State, w: nat)
    requires Shape(p, s) && SweepStep(p, s, s', w) && WorkerOk(p, s.prev, w, s.workers[w])
    ensures Left(p, s') < Left(p, s)
  {
    var k := s.workers[w];
    var k' := WorkerAt(p, s.prev, w, k);
    SharesAreDisjoint(p.size, p.n, w, p.n);
    MovesForward(p, s.prev, w, k);
    WeightDrops(p.size, k, k');
    SumUpdate(Weights(p.size), s.workers, w, k');
  }

  lemma ArriveSpends(p: Setup, s: State, s': State, w: nat)
    requires Shape(p, s) && ArriveStep(s, s', w)
    ensures Left(p, s') < Left(p, s)
  {
    SumUpdate(Weights(p.size), s.workers, w, s'.workers[w]);
  }

  lemma SumFalls(f: Worker -> int, xs: seq<Worker>, ys: seq<Worker>, most: nat)
    requires |xs| == |ys| && forall w | 0 <= w < |xs| :: 0 <= f(ys[w]) <= most <= f(xs[w]) <= most + 1
    ensures Sum(f, ys) <= Sum(f, xs)
  {
    SumBounds(f, ys, 0, most);
    SumBounds(f, xs, most, most + 1);
  }

  lemma Release1Spends(p: Setup, s: State, s': State)
    requires Shape(p, s) && Release(p, s, s') && AllAt(s, Blocked1)
    ensures Left(p, s') < Left(p, s)
  {
    var f, most := Weights(p.size), SweepMost(p.size) + 2;
    forall w | 0 <= w < p.n ensures 0 <= f(s'.workers[w]) <= most {
      SharesAreDisjoint(p.size, p.n, w, p.n);
      SweepInRange(p.size, Begin(p.size, p.n, w), 0, 0);
    }
    SumFalls(f, s.workers, s'.workers, most);
  }

  lemma Release2Spends(p: Setup, s: State, s': State)
    requires Shape(p, s) && Release(p, s, s') && AllAt(s, Blocked2)
    ensures Left(p, s') < Left(p, s)
  {
    var f := Weights(p.size);
    SumBounds(f, s'.workers, SweepMost(p.size) + 4, SweepMost(p.size) + 4);
    SumBounds(f, s.workers, 0, 0);
    ScanInRange(p.size, 0, 0);
  }

  lemma BossSpends(p: Setup, s: State, s': State)
    requires Shape(p, s) && (BossArrives(s, s') || CopyStep(p, s, s') || CheckStep(p, s, s')) && Count(s') == Count(s)
    ensures Left(p, s') < Left(p, s)
  {
    ScanInRange(p.size, s.boss.row, s.boss.col);
    ScanInRange(p.size, 0, 0);
    NextRow(p.size, s.boss.row);
  }

  lemma StepSpends(p: Setup, s: State, s': State, last: Grid, now: Grid)
    requires InPhase(p, s, last, now) && Next(p, s, s') && Count(s') == Count(s)
    ensures Left(p, s') < Left(p, s)
  {
    if w: nat :| WorkerMoves(p, s, s', w) {
      if SweepStep(p, s, s', w) {
        SweepSpends(p, s, s', w);
      } else {
        ArriveSpends(p, s, s', w);
      }
    } else if Release(p, s, s') {
      if AllAt(s, Blocked1) {
        Release1Spends(p, s, s');
      } else {
        Release2Spends(p, s, s');
      }
    } else {
      BossSpends(p, s, s');
    }
  }

  lemma WorkersInRange(p: Setup, s: State)
    requires Shape(p, s) && forall w: nat | w < p.n :: WorkerOk(p, s.prev, w, s.workers[w])
    ensures 0 <= Sum(Weights(p.size), s.workers) <= p.n * (SweepMost(p.size) + 4)
  {
    forall w: nat | w < p.n ensures 0 <= Weights(p.size)(s.workers[w]) <= SweepMost(p.size) + 4 {
      WeightInRange(p, s.prev, w, s.workers[w]);
    }
    SumBounds(Weights(p.size), s.workers, 0, SweepMost(p.size) + 4);
  }

  lemma BossInRange(size: nat, n: nat, b: Boss)
    requires 0 <= b.row <= size && 0 <= b.col <= size
    ensures 0 <= BossWeight(size, n, b) < 2 * ScanMost(size) + n * (SweepMost(size) + 4) + 8
  {
    ScanInRange(size, b.row, b.col);
    MulMonotone(n, 0, SweepMost(size) + 4);
  }

  lemma LeftInRange(p: Setup, s: State)
    requires Shape(p, s) && forall w: nat | w < p.n :: WorkerOk(p, s.prev, w, s.workers[w])
    ensures 0 <= Left(p, s) < PhaseMost(p.size, p.n)
  {
    WorkersInRange(p, s);
    BossInRange(p.size, p.n, s.boss);
  }

  // ---- Whole runs ------------------------------------------------------------------------------------

  lemma PhaseOf(p: Setup, run: seq<State>, i: nat) returns (last: Grid, now: Grid)
    requires Proper(p) && Run(p, run) && i < |run|
    ensures InPhase(p, run[i], last, now)
  {
    forall j: nat ensures OneSweep(p, Plates(p)(j), Plates(p)(j + 1)) {
    }
    last, now := EveryPhase(p, Plates(p), run, i);
  }

  lemma EveryLeft(p: Setup, run: seq<State>, i: nat)
    requires Proper(p) && Run(p, run) && i < |run|
    ensures 0 <= Left(p, run[i]) < PhaseMost(p.size, p.n)
  {
    var last, now := PhaseOf(p, run, i);
    WorkersOk(p, run[i], last, now);
    LeftInRange(p, run[i]);
  }

  /** A step stays in its phase and uses some of it up, or begins the next phase. */
  predicate Spent(counts: seq<nat>, lefts: seq<int>, i: int)
    requires 0 < i < |counts| == |lefts|
  {
    (counts[i] == counts[i - 1] && lefts[i] < lefts[i - 1]) || counts[i] == counts[i - 1] + 1
  }

  lemma EveryStepSpends(p: Setup, run: seq<State>, i: nat)
    requires Proper(p) && Run(p, run) && 0 < i < |run|
    ensures (Count(run[i]) == Count(run[i - 1]) && Left(p, run[i]) < Left(p, run[i - 1]))
         || Count(run[i]) == Count(run[i - 1]) + 1
  {
    var last, now := PhaseOf(p, run, i - 1);
    AnyStepSpends(p, run[i - 1], run[i], last, now);
  }

  lemma AnyStepSpends(p: Setup, s: State, s': State, last: Grid, now: Grid)
    requires InPhase(p, s, last, now) && Next(p, s, s')
    ensures (Count(s') == Count(s) && Left(p, s') < Left(p, s)) || Count(s') == Count(s) + 1
  {
    CountGrows(p, s, s');
    if Count(s') == Count(s) {
      StepSpends(p, s, s', last, now);
    }
  }

  lemma WorkersOk(p: Setup, s: State, last: Grid, now: Grid)
    requires InPhase(p, s, last, now)
    ensures Shape(p, s) && forall w: nat | w < p.n :: WorkerOk(p, s.prev, w, s.workers[w])
  {
  }

  lemma CountGrows(p: Setup, s: State, s': State)
    requires Next(p, s, s')
    ensures Count(s') == Count(s) || Count(s') == Count(s) + 1
  {
  }

  /** Between two phases nothing is left of the first one; in all, the steps fit into the phases. */
  lemma {:induction false} PhasesAddUp(counts: seq<nat>, lefts: seq<int>, most: nat, i: nat)
    requires i < |counts| == |lefts| && counts[0] == 0 && forall j | 0 <= j < |lefts| :: 0 <= lefts[j] < most
    requires forall j | 0 < j < |counts| :: Spent(counts, lefts, j)
    ensures i + lefts[i] < (counts[i] + 1) * most
  {
    if i > 0 {
      PhasesAddUp(counts, lefts, most, i - 1);
      assert Spent(counts, lefts, i);
      OneMore(most, counts[i - 1], counts[i], i, lefts[i - 1], lefts[i]);
    }
  }

  lemma OneMore(most: nat, k: nat, k': nat, i: nat, left: int, left': int)
    requires i > 0 && i - 1 + left < (k + 1) * most && 0 <= left' < most && left >= 0
    requires (k' == k && left' < left) || k' == k + 1
    ensures i + left' < (k' + 1) * most
  {
    if k' == k + 1 {
      assert (k' + 1) * most == (k + 1) * most + most;
    }
  }

  /** No phase of this setup has more than most steps. */
  ghost predicate PhasesFit(p: Setup, most: nat)
    requires Proper(p)
  {
    forall run: seq<State>, i: nat | Run(p, run) && i < |run| :: 0 <= Left(p, run[i]) < most
  }

  lemma PhaseSteps(p: Setup) returns (most: nat)
    requires Proper(p)
    ensures PhasesFit(p, most)
  {
    most := PhaseMost(p.size, p.n);
    forall run: seq<State>, i: nat | Run(p, run) && i < |run| ensures 0 <= Left(p, run[i]) < most {
      EveryLeft(p, run, i);
    }
  }

  ghost function Counts(run: seq<State>): (counts: seq<nat>)
    ensures |counts| == |run|
  {
    seq(|run|, i requires 0 <= i < |run| => Count(run[i]))
  }

  ghost function Lefts(p: Setup, run: seq<State>): (lefts: seq<int>)
    ensures |lefts| == |run|
  {
    seq(|run|, i requires 0 <= i < |run| => Left(p, run[i]))
  }

  lemma RunSpends(p: Setup, run: seq<State>)
    requires Proper(p) && Run(p, run)
    ensures Counts(run)[0] == 0 && forall i | 0 < i < |run| :: Spent(Counts(run), Lefts(p, run), i)
  {
    forall i | 0 < i < |run| ensures Spent(Counts(run), Lefts(p, run), i) {
      EveryStepSpends(p, run, i);
    }
  }

  lemma LeftsInRange(p: Setup, most: nat, run: seq<State>, i: nat)
    requires Proper(p) && PhasesFit(p, most) && Run(p, run) && i < |run|
    ensures 0 <= Lefts(p, run)[i] < most
  {
  }

  lemma StepsBounded(p: Setup, most: nat, run: seq<State>)
    requires Proper(p) && PhasesFit(p, most) && Run(p, run)
    ensures |run| <= (Count(run[|run| - 1]) + 1) * most
  {
    var counts, lefts := Counts(run), Lefts(p, run);
    RunSpends(p, run);
    forall i | 0 <= i < |run| ensures 0 <= lefts[i] < most {
      LeftsInRange(p, most, run, i);
    }
    PhasesAddUp(counts, lefts, most, |run| - 1);
  }

  lemma AtMostPhases(steps: nat, count: nat, energy: real, most: nat)
    requires steps <= (count + 1) * most && count as real <= energy
    ensures steps <= (energy.Floor + 1) * most
  {
    assert count <= energy.Floor;
    MulMonotone(most, count + 1, energy.Floor + 1);
  }

  ghost predicate Bounded(p: Setup, bound: int) { forall run: seq<State> | Run(p, run) :: |run| <= bound }

  /** There is a length that no run exceeds. */
  lemma RunsEnd(p: Setup) returns (bound: int)
    requires Proper(p) && Covered(p)
    ensures Bounded(p, bound)
  {
    var most := PhaseSteps(p);
    var energy := 100.0 * Energy(p.size, p.plate);
    bound := (energy.Floor + 1) * most;
    forall run: seq<State> | Run(p, run) ensures |run| <= bound {
      PhasesBounded(p, run, |run| - 1);
      StepsBounded(p, most, run);
      AtMostPhases(|run|, Count(run[|run| - 1]), energy, most);
    }
  }

  lemma RunExtends(p: Setup, run: seq<State>, s: State)
    requires Run(p, run) && Next(p, run[|run| - 1], s)
    ensures Run(p, run + [s])
  {
    RunGrows((t: State) => Init(p, t), (t: State, t': State) => Next(p, t, t'), run, s);
  }

  lemma {:induction false} Continued(p: Setup, bound: int, run: seq<State>) returns (longer: seq<State>)
    requires Proper(p) && Bounded(p, bound) && Run(p, run)
    ensures Run(p, longer) && run <= longer && longer[|longer| - 1].boss.pc == Finished
    decreases bound - |run|
  {
    EveryState(p, run, |run| - 1);
    if run[|run| - 1].boss.pc == Finished {
      longer := run;
    } else {
      var s :| Next(p, run[|run| - 1], s);
      RunExtends(p, run, s);
      longer := Continued(p, bound, run + [s]);
    }
  }

  /** Every run goes on until the update has returned. */
  lemma Completed(p: Setup, run: seq<State>) returns (longer: seq<State>)
    requires Proper(p) && Covered(p) && Run(p, run)
    ensures Run(p, longer) && run <= longer && longer[|longer| - 1].boss.pc == Finished
  {
    var bound := RunsEnd(p);
    longer := Continued(p, bound, run);
  }

  // ---- Plates that never become steady -----------------------------------------------------------------

  /** A hot cell in the leftover rows; every other cell is cold. */
  ghost function HotSpot(size: nat, c: Cell): (g: Grid)
    ensures IsGrid(size, g) && Tempered(size, g)
  {
    imap d: Cell | Inside(size, d) :: if d == c then 100.0 else 0.0
  }

  lemma {:induction false} LeftoverStays(p: Setup, k: nat, c: Cell)
    requires Proper(p) && Inside(p.size, c) && c.i >= p.size - p.size % p.n
    ensures After(p, k)[c] == p.plate[c]
  {
    RowsHandedOut(p.size, p.n);
    if k > 0 {
      LeftoverStays(p, k - 1, c);
    }
  }

  lemma NeverCalm(p: Setup, c: Cell, k: nat)
    requires Proper(p) && Inside(p.size, c) && c.i >= p.size - p.size % p.n && c !in p.locked
    requires p.plate == HotSpot(p.size, c)
    ensures !Calm(p.size, p.locked, After(p, k))
  {
    var below := Cell(c.i + 1, c.j);
    assert !OnBorder(p.size, c);
    LeftoverStays(p, k, c);
    LeftoverStays(p, k, below);
    PhasesTempered(p.size, p.locked, Begin(p.size, p.n, p.n), p.plate, k);
    FarFromMean(p.size, After(p, k), c);
  }

  lemma FarFromMean(size: nat, g: Grid, c: Cell)
    requires IsGrid(size, g) && Tempered(size, g) && Inside(size, c) && !OnBorder(size, c)
    requires g[c] == 100.0 && g[Cell(c.i + 1, c.j)] == 0.0
    ensures Deviation(g, c) >= 25.0
  {
  }

  /** The update of this plate can return. */
  ghost predicate Returns(p: Setup) { exists run: seq<State> :: Run(p, run) && run[|run| - 1].boss.pc == Finished }

  lemma NeverReturns(p: Setup, c: Cell)
    requires Proper(p) && Inside(p.size, c) && c.i >= p.size - p.size % p.n && c !in p.locked
    requires p.plate == HotSpot(p.size, c)
    ensures !Returns(p)
  {
    forall run: seq<State> | Run(p, run) ensures run[|run| - 1].boss.pc != Finished {
      var s := run[|run| - 1];
      EveryState(p, run, |run| - 1);
      NeverCalm(p, c, Count(s) + 1);
    }
  }

  lemma SomeRun(p: Setup) returns (run: seq<State>)
    requires Proper(p)
    ensures Run(p, run)
  {
    var s := State(p.plate, p.plate, seq(p.n, w => Worker(Arrive1, 0, 0, 0, 0.0)), Boss(Arrive1, 0, 0, 0.0, 0));
    assert Init(p, s);
    run := [s];
  }

  lemma CanReturn(p: Setup)
    requires Proper(p) && Covered(p)
    ensures Returns(p)
  {
    var run := SomeRun(p);
    run := Completed(p, run);
  }

  /** The update of every plate can return exactly if no unlocked cell lies in the leftover rows. */
  lemma ReturnsAlways(size: nat, n: nat, locked: iset<Cell>)
    requires n > 0 && Framed(size, locked)
    ensures (forall g: Grid | IsGrid(size, g) && Tempered(size, g) :: Returns(Setup(size, n, locked, g)))
       <==> forall c: Cell | Inside(size, c) && c.i >= size - size % n :: c in locked
  {
    if c: Cell :| Inside(size, c) && c.i >= size - size % n && c !in locked {
      var g := HotSpot(size, c);
      NeverReturns(Setup(size, n, locked, g), c);
    } else {
      forall g: Grid | IsGrid(size, g) && Tempered(size, g) ensures Returns(Setup(size, n, locked, g)) {
        CanReturn(Setup(size, n, locked, g));
      }
    }
  }

  // ---- The plate of the program -----------------------------------------------------------------------

  /** The plate and the locks as initPlate leaves them. */
  ghost function Start(size: nat, n: nat): (p: Setup)
    requires n > 0
    ensures p.size == size && Proper(p) && Tempered(size, p.plate)
  {
    PlateArrays.StartIsProper(size);
    Setup(size, n, PlateArrays.StartLocks(size), PlateArrays.StartGrid(size))
  }

  /** Above a free cell that stays at 50, no cell is colder than an eighth of that after a phase. */
  lemma NeighbourIsWarm(p: Setup, c: Cell, k: nat)
    requires Proper(p) && Tempered(p.size, p.plate) && Inside(p.size, c) && 0 < c.i && c !in p.locked
    requires c.i >= p.size - p.size % p.n && p.plate[c] == 50.0
    requires var above := Cell(c.i - 1, c.j); above in p.locked || above.i >= p.size - p.size % p.n ==>
        p.plate[above] >= 50.0
    ensures After(p, k + 1)[Cell(c.i - 1, c.j)] >= 6.25
  {
    var above := Cell(c.i - 1, c.j);
    if above in p.locked {
      PhasesLocked(p.size, p.locked, Begin(p.size, p.n, p.n), p.plate, k + 1, above);
    } else if above.i >= p.size - p.size % p.n {
      LeftoverStays(p, k + 1, above);
    } else {
      RowsHandedOut(p.size, p.n);
      LeftoverStays(p, k, c);
      PhasesTempered(p.size, p.locked, Begin(p.size, p.n, p.n), p.plate, k);
      WarmAverage(p.size, After(p, k), above);
    }
  }

  lemma WarmAverage(size: nat, g: Grid, c: Cell)
    requires IsGrid(size, g) && Tempered(size, g) && Inside(size, c) && !OnBorder(size, c)
        && g[Cell(c.i + 1, c.j)] == 50.0
    ensures Average(g, c) >= 6.25
  {
  }

  lemma FreeBottom(size: nat, n: nat, k: nat)
    requires n > 0 && size >= 5 && (size - 2) % 20 != 0 && size % n > 1
    ensures !Calm(size, PlateArrays.StartLocks(size), After(Start(size, n), k + 1))
  {
    var p := Start(size, n);
    var c := Cell(size - 2, 2);
    var left, right, below := Cell(size - 2, 1), Cell(size - 2, 3), Cell(size - 1, 2);
    LeftoverStays(p, k + 1, c);
    LeftoverStays(p, k + 1, left);
    LeftoverStays(p, k + 1, right);
    LeftoverStays(p, k + 1, below);
    NeighbourIsWarm(p, c, k);
    AboveMean(size, After(p, k + 1), c);
  }

  lemma AboveMean(size: nat, g: Grid, c: Cell)
    requires IsGrid(size, g) && Inside(size, c) && !OnBorder(size, c)
    requires g[c] == g[Cell(c.i, c.j - 1)] == g[Cell(c.i, c.j + 1)] == 50.0
    requires g[Cell(c.i + 1, c.j)] == 100.0 && g[Cell(c.i - 1, c.j)] >= 6.25
    ensures Deviation(g, c) > 0.1
  {
  }

  /** For the plate of the program the update returns exactly if the number of workers divides the size, or
      leaves the last row only. */
  lemma ProgramReturns(size: nat, n: nat)
    requires n > 0 && size >= 5 && (size - 2) % 20 != 0
    ensures Returns(Start(size, n)) <==> size % n <= 1
  {
    var p := Start(size, n);
    if size % n <= 1 {
      DivisibleIsCovered(p);
      CanReturn(p);
    } else {
      forall run: seq<State> | Run(p, run) ensures run[|run| - 1].boss.pc != Finished {
        EveryState(p, run, |run| - 1);
        FreeBottom(size, n, Count(run[|run| - 1]));
      }
    }
  }
}
