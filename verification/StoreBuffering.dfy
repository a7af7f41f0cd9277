/** The store-buffering litmus loop: a parent and a child meet at a reference-count gate in every
    iteration, each stores its own flag, passes a barrier, loads the other's flag, and the second
    of the two to reach the lock checks that not both loads returned 0.

    Memory is that of a total-store-order machine: a store goes to the back of its thread's store
    buffer, the oldest entry of a buffer may reach memory at any time, and a load takes the newest
    entry for its variable in its own buffer or else memory. The fence, the atomic increment and the
    mutex operations wait for an empty buffer. */
module StoreBuffering {
  import opened Runs

  datatype Var = X | Y | R2 | R4 | R2Ready | R4Ready | Killed

  datatype Memory = Memory(x: int, y: int, r2: int, r4: int, r2Ready: int, r4Ready: int, killed: int)
  {
    function Get(v: Var): int {
      match v
      case X => x case Y => y case R2 => r2 case R4 => r4
      case R2Ready => r2Ready case R4Ready => r4Ready case Killed => killed
    }

    function Set(v: Var, n: int): Memory {
      match v
      case X => this.(x := n) case Y => this.(y := n)
      case R2 => this.(r2 := n) case R4 => this.(r4 := n)
      case R2Ready => this.(r2Ready := n) case R4Ready => this.(r4Ready := n) case Killed => this.(killed := n)
    }
  }

  datatype Store = Store(v: Var, n: int)

  function Read(m: Memory, buf: seq<Store>, v: Var): int {
    if buf == [] then m.Get(v)
    else if buf[|buf| - 1].v == v then buf[|buf| - 1].n
    else Read(m, buf[..|buf| - 1], v)
  }

  /** A variable holds what was set last. */
  lemma SetGet(m: Memory, v: Var, w: Var, n: int)
    ensures m.Set(v, n).Get(w) == if v == w then n else m.Get(w)
  {
  }

  /** A processor reads the newest store to the variable in its own buffer. */
  lemma ReadsNewest(m: Memory, buf: seq<Store>, s: Store, v: Var)
    ensures Read(m, buf + [s], v) == if s.v == v then s.n else Read(m, buf, v)
  {
    assert (buf + [s])[..|buf|] == buf;
  }

  /** When its oldest store reaches memory, a processor does not notice. */
  lemma {:induction false} DrainUnnoticed(m: Memory, buf: seq<Store>, v: Var)
    requires buf != []
    ensures Read(m.Set(buf[0].v, buf[0].n), buf[1..], v) == Read(m, buf, v)
  {
    var last := buf[|buf| - 1];
    if |buf| == 1 {
      SetGet(m, last.v, v, last.n);
    } else {
      assert buf[1..][|buf[1..]| - 1] == last && buf[1..][..|buf[1..]| - 1] == buf[..|buf| - 1][1..];
      if last.v != v {
        DrainUnnoticed(m, buf[..|buf| - 1], v);
      }
    }
  }

  datatype Side = Parent | Child

  function Other(p: Side): Side { if p == Parent then Child else Parent }
  function Mine(p: Side): Var { if p == Parent then X else Y }
  function Result(p: Side): Var { if p == Parent then R2 else R4 }
  function Ready(p: Side): Var { if p == Parent then R2Ready else R4Ready }

  /** The two modes that reach the load: a full fence, or only a compiler barrier. */
  datatype Mode = MemoryBarrier | CompilerBarrier

  datatype Pc =
    | LoopTest    // i < 100000000
    | Inc         // uatomic_inc(&ref)
    | Spin        // read ref in the gate
    | ReadKilled  // read killed in the gate
    | StoreMine   // x = 1 (parent), y = 1 (child)
    | Fence
    | LoadTheirs
    | Lock
    | TestReady   // read the other side's ready flag
    | Check       // compare with the other side's result
    | Kill        // killed = 1
    | ClearReady | ClearX | ClearY
    | UnlockSecond
    | StoreResult | StoreReady
    | UnlockFirst
    | Done
    | Aborted

  datatype Cpu = Cpu(pc: Pc, i: int, r: int, buf: seq<Store>)

  datatype Owner = Nobody | Held(side: Side)

  /** ref is apart from the other variables: it changes by atomic increments alone, so it is never
      in a store buffer. */
  datatype State = State(m: Memory, ref: int, parent: Cpu, child: Cpu, lock: Owner)
  {
    function At(p: Side): Cpu { if p == Parent then parent else child }
    function With(p: Side, c: Cpu): State { if p == Parent then this.(parent := c) else this.(child := c) }
  }

  const ZERO := Memory(0, 0, 0, 0, 0, 0, 0)

  ghost predicate Init(s: State) {
    && s.m == ZERO && s.ref == 0 && s.lock == Nobody
    && s.parent.pc == s.child.pc == LoopTest && s.parent.i == s.child.i == 0
    && s.parent.buf == s.child.buf == []
  }

  predicate Enabled(mode: Mode, s: State, p: Side) {
    match s.At(p).pc
    case Inc => s.At(p).buf == []
    case Fence => mode == MemoryBarrier ==> s.At(p).buf == []
    case Lock => s.At(p).buf == [] && s.lock == Nobody
    case UnlockFirst | UnlockSecond => s.At(p).buf == []
    case Done | Aborted => false
    case _ => true
  }

  /** What the next instruction of side p does to its registers and store buffer, in a program of
      n iterations. */
  function Advance(n: int, m: Memory, ref: int, p: Side, c: Cpu): Cpu {
    match c.pc
    case LoopTest => c.(pc := if c.i < n then Inc else Done)
    case Inc => c.(pc := Spin)
    case Spin => c.(pc := if ref < 2 * (c.i + 1) then ReadKilled else StoreMine)
    case ReadKilled => c.(pc := if Read(m, c.buf, Killed) != 0 then Aborted else Spin)
    case StoreMine => c.(pc := Fence, buf := c.buf + [Store(Mine(p), 1)])
    case Fence => c.(pc := LoadTheirs)
    case LoadTheirs => c.(pc := Lock, r := Read(m, c.buf, Mine(Other(p))))
    case Lock => c.(pc := TestReady)
    case TestReady => c.(pc := if Read(m, c.buf, Ready(Other(p))) != 0 then Check else StoreResult)
    case Check => c.(pc := if c.r == 0 && Read(m, c.buf, Result(Other(p))) == 0 then Kill else ClearReady)
    case Kill => c.(pc := Aborted, buf := c.buf + [Store(Killed, 1)])
    case ClearReady => c.(pc := ClearX, buf := c.buf + [Store(Ready(Other(p)), 0)])
    case ClearX => c.(pc := ClearY, buf := c.buf + [Store(X, 0)])
    case ClearY => c.(pc := UnlockSecond, buf := c.buf + [Store(Y, 0)])
    case StoreResult => c.(pc := StoreReady, buf := c.buf + [Store(Result(p), c.r)])
    case StoreReady => c.(pc := UnlockFirst, buf := c.buf + [Store(Ready(p), 1)])
    case UnlockFirst | UnlockSecond => c.(pc := LoopTest, i := c.i + 1)
    case Done | Aborted => c
  }

  /** The next instruction of side p: only the increment writes memory at once, and only the mutex
      operations touch the lock. */
  function Step(n: int, s: State, p: Side): State {
    var c := s.At(p);
    s.With(p, Advance(n, s.m, s.ref, p, c)).(
    ref := if c.pc == Inc then s.ref + 1 else s.ref,
    lock := match c.pc
            case Lock => Held(p)
            case UnlockFirst | UnlockSecond => Nobody
            case _ => s.lock)
  }

  /** The oldest store of one side's buffer reaches memory. */
  function Drain(s: State, p: Side): State
    requires s.At(p).buf != []
  {
    var c := s.At(p);
    s.With(p, c.(buf := c.buf[1..])).(m := s.m.Set(c.buf[0].v, c.buf[0].n))
  }

  ghost predicate Next(mode: Mode, n: int, s: State, s': State) {
    exists p ::
      || (Enabled(mode, s, p) && s' == Step(n, s, p))
      || (s.At(p).buf != [] && s' == Drain(s, p))
  }

  ghost predicate Run(mode: Mode, n: int, run: seq<State>) {
    IsRun(Init, (s: State, s': State) => Next(mode, n, s, s'), run)
  }

  lemma Starts(mode: Mode, n: int)
    ensures Run(mode, n, [State(Memory(0, 0, 0, 0, 0, 0, 0), 0,
                                Cpu(LoopTest, 0, 0, []), Cpu(LoopTest, 0, 0, []), Nobody)])
  {
  }

  // ---- The invariant with the fence ---------------------------------------------------------

  /** How often a side has incremented the reference count. */
  function Arrivals(c: Cpu): int {
    match c.pc case LoopTest | Inc | Done => c.i case _ => c.i + 1
  }

  predicate InLock(pc: Pc) {
    match pc
    case TestReady | Check | ClearReady | ClearX | ClearY | UnlockSecond => true
    case StoreResult | StoreReady | UnlockFirst => true
    case _ => false
  }

  predicate Waiting(pc: Pc) {
    match pc case LoopTest | Inc | Spin | ReadKilled | Done => true case _ => false
  }

  /** This round's own flag: not stored yet, in the buffer, or in memory. */
  predicate OwnFlag(m: Memory, p: Side, c: Cpu) {
    match c.pc
    case LoopTest | Inc | Spin | ReadKilled | Done | StoreMine => c.buf == [] && m.Get(Mine(p)) == 0
    case Fence => || (c.buf == [Store(Mine(p), 1)] && m.Get(Mine(p)) == 0)
                  || (c.buf == [] && m.Get(Mine(p)) == 1)
    case LoadTheirs | Lock | TestReady => c.buf == [] && m.Get(Mine(p)) == 1
    case _ => true
  }

  /** A side while both are in the same iteration: it has not published its result, or is about to. */
  predicate LevelSide(m: Memory, p: Side, c: Cpu) {
    && OwnFlag(m, p, c)
    && (match c.pc
        case StoreResult => c.buf == [] && m.Get(Mine(p)) == 1 && m.Get(Ready(p)) == 0
        case StoreReady =>
          && m.Get(Mine(p)) == 1 && m.Get(Ready(p)) == 0
          && (c.buf == [Store(Result(p), c.r)] || (c.buf == [] && m.Get(Result(p)) == c.r))
        case UnlockFirst =>
          && m.Get(Mine(p)) == 1
          && (|| (c.buf == [Store(Result(p), c.r), Store(Ready(p), 1)] && m.Get(Ready(p)) == 0)
              || (c.buf == [Store(Ready(p), 1)] && m.Get(Result(p)) == c.r && m.Get(Ready(p)) == 0)
              || (c.buf == [] && m.Get(Result(p)) == c.r && m.Get(Ready(p)) == 1))
        case Check | Kill | ClearReady | ClearX | ClearY | UnlockSecond | Aborted => false
        case _ => m.Get(Ready(p)) == 0)
  }

  function Cleared(k: int, at: int): int { if k > at then 0 else 1 }

  function ClearingStore(leader: Side, k: int): Store {
    if k == 0 then Store(Ready(leader), 0) else if k == 1 then Store(X, 0) else Store(Y, 0)
  }

  /** The first k of the three clearing stores have been issued; all but |buf| of them are in memory. */
  predicate Clearing(m: Memory, leader: Side, buf: seq<Store>, k: int) {
    && |buf| <= k
    && (forall j | 0 <= j < |buf| :: buf[j] == ClearingStore(leader, k - |buf| + j))
    && m.Get(Ready(leader)) == Cleared(k - |buf|, 0)
    && m.x == Cleared(k - |buf|, 1)
    && m.y == Cleared(k - |buf|, 2)
  }

  /** The sides while p has finished the iteration the other side is still in. */
  predicate AheadSides(m: Memory, p: Side, c: Cpu, o: Cpu) {
    && Waiting(c.pc) && c.buf == []
    && m.Get(Ready(Other(p))) == 0
    && (match o.pc
        case ClearX => Clearing(m, p, o.buf, 1)
        case ClearY => Clearing(m, p, o.buf, 2)
        case UnlockSecond => Clearing(m, p, o.buf, 3)
        case StoreResult | StoreReady | UnlockFirst | Kill | Aborted | Done => false
        case _ =>
          && m.Get(Ready(p)) == 1 && m.Get(Result(p)) == c.r && m.Get(Mine(p)) == 1
          && OwnFlag(m, Other(p), o)
          && (o.pc == Check || o.pc == ClearReady ==> o.buf == [] && m.Get(Mine(Other(p))) == 1))
  }

  /** The side has loaded the other's flag in this iteration. */
  predicate Loaded(pc: Pc) {
    match pc
    case Lock | TestReady | StoreResult | StoreReady | UnlockFirst => true
    case Check | ClearReady | ClearX | ClearY | UnlockSecond => true
    case _ => false
  }

  predicate Ahead(s: State, p: Side) {
    && s.At(p).i == s.At(Other(p)).i + 1
    && AheadSides(s.m, p, s.At(p), s.At(Other(p)))
    && (Loaded(s.At(Other(p)).pc) ==> s.parent.r != 0 || s.child.r != 0)
  }

  predicate Level(s: State) {
    && s.parent.i == s.child.i
    && LevelSide(s.m, Parent, s.parent) && LevelSide(s.m, Child, s.child)
    && (Loaded(s.parent.pc) && Loaded(s.child.pc) ==> s.parent.r != 0 || s.child.r != 0)
  }

  predicate Bounded(n: int, c: Cpu) {
    && 0 <= c.i <= n && (c.pc == Done ==> c.i == n) && (c.pc != Done && c.pc != LoopTest ==> c.i < n)
  }

  /** Control: the gate's count, the iteration bounds and who holds the lock. */
  predicate Control(n: int, s: State) {
    && s.ref == Arrivals(s.parent) + Arrivals(s.child)
    && Bounded(n, s.parent) && Bounded(n, s.child)
    && (InLock(s.parent.pc) <==> s.lock == Held(Parent))
    && (InLock(s.child.pc) <==> s.lock == Held(Child))
  }

  predicate Inv(n: int, s: State) {
    Control(n, s) && s.m.killed == 0 && (Level(s) || Ahead(s, Parent) || Ahead(s, Child))
  }

  lemma LevelSideStep(n: int, m: Memory, ref: int, p: Side, c: Cpu)
    requires LevelSide(m, p, c) && c.pc != UnlockFirst && m.killed == 0
    requires c.pc == Fence ==> c.buf == []
    requires c.pc == TestReady ==> m.Get(Ready(Other(p))) == 0
    ensures LevelSide(m, p, Advance(n, m, ref, p, c))
  {
  }

  /** Publishing first puts the side ahead. */
  lemma UnlockFirstStep(n: int, m: Memory, ref: int, p: Side, c: Cpu, o: Cpu)
    requires LevelSide(m, p, c) && LevelSide(m, Other(p), o) && c.pc == UnlockFirst && c.buf == []
    requires !InLock(o.pc) && o.pc != Done
    ensures AheadSides(m, p, Advance(n, m, ref, p, c), o)
  {
  }

  lemma LeaderSideStep(n: int, m: Memory, ref: int, p: Side, c: Cpu, o: Cpu)
    requires AheadSides(m, p, c, o) && m.killed == 0
    requires c.pc == Spin ==> ref < 2 * (c.i + 1)
    ensures AheadSides(m, p, Advance(n, m, ref, p, c), o)
  {
  }

  lemma FollowerSideStep(n: int, m: Memory, ref: int, p: Side, c: Cpu, o: Cpu)
    requires AheadSides(m, p, c, o) && m.killed == 0 && o.pc != UnlockSecond
    requires o.pc == Fence ==> o.buf == []
    requires o.pc == LoopTest ==> o.i < n
    requires o.pc == Check ==> c.r != 0 || o.r != 0
    ensures AheadSides(m, p, c, Advance(n, m, ref, Other(p), o))
  {
  }

  /** Clearing and unlocking makes the sides level again. */
  lemma UnlockSecondStep(n: int, m: Memory, ref: int, p: Side, c: Cpu, o: Cpu)
    requires AheadSides(m, p, c, o) && o.pc == UnlockSecond && o.buf == []
    ensures LevelSide(m, p, c) && LevelSide(m, Other(p), Advance(n, m, ref, Other(p), o))
  {
  }


  lemma ControlKept(n: int, s: State, p: Side)
    requires Control(n, s) && Enabled(MemoryBarrier, s, p)
    requires s.At(p).pc != Kill && Step(n, s, p).At(p).pc != Kill && Step(n, s, p).At(p).pc != Aborted
    ensures Control(n, Step(n, s, p))
  {
  }

  lemma LevelStep(n: int, s: State, p: Side)
    requires Control(n, s) && s.m.killed == 0 && Level(s) && Enabled(MemoryBarrier, s, p)
    ensures Level(Step(n, s, p)) || Ahead(Step(n, s, p), p)
  {
    var c, o := s.At(p), s.At(Other(p));
    if c.pc == UnlockFirst {
      UnlockFirstStep(n, s.m, s.ref, p, c, o);
    } else {
      LevelSideStep(n, s.m, s.ref, p, c);
    }
  }

  lemma LeaderStep(n: int, s: State, p: Side)
    requires Control(n, s) && s.m.killed == 0 && Ahead(s, p) && Enabled(MemoryBarrier, s, p)
    ensures Ahead(Step(n, s, p), p)
  {
    LeaderSideStep(n, s.m, s.ref, p, s.At(p), s.At(Other(p)));
  }

  lemma FollowerStep(n: int, s: State, p: Side)
    requires Control(n, s) && s.m.killed == 0 && Ahead(s, Other(p)) && Enabled(MemoryBarrier, s, p)
    ensures Level(Step(n, s, p)) || Ahead(Step(n, s, p), Other(p))
  {
    var c, o := s.At(p), s.At(Other(p));
    if c.pc == UnlockSecond {
      UnlockSecondStep(n, s.m, s.ref, Other(p), o, c);
    } else {
      FollowerSideStep(n, s.m, s.ref, Other(p), o, c);
    }
  }

  lemma StepKeeps(n: int, s: State, p: Side)
    requires Inv(n, s) && Enabled(MemoryBarrier, s, p)
    ensures Inv(n, Step(n, s, p))
  {
    if Level(s) {
      LevelStep(n, s, p);
    } else if Ahead(s, p) {
      LeaderStep(n, s, p);
    } else {
      FollowerStep(n, s, p);
    }
    NoKill(n, s);
    NobodyKills(Step(n, s, p));
    ControlKept(n, s, p);
  }

  lemma NoKill(n: int, s: State)
    requires Inv(n, s)
    ensures forall p :: s.At(p).pc != Kill && s.At(p).pc != Aborted
  {
    NobodyKills(s);
  }

  lemma NobodyKills(s: State)
    requires Level(s) || Ahead(s, Parent) || Ahead(s, Child)
    ensures forall p :: s.At(p).pc != Kill && s.At(p).pc != Aborted
  {
    forall p ensures s.At(p).pc != Kill && s.At(p).pc != Aborted {
      if Level(s) {
        assert LevelSide(s.m, p, s.At(p));
      } else if Ahead(s, p) {
        assert AheadSides(s.m, p, s.At(p), s.At(Other(p)));
      } else {
        assert AheadSides(s.m, Other(p), s.At(Other(p)), s.At(p));
      }
    }
  }

  /** A store that leaves the buffer keeps both sides level. */
  lemma LevelSideDrain(m: Memory, p: Side, c: Cpu, o: Cpu)
    requires LevelSide(m, p, c) && LevelSide(m, Other(p), o) && c.buf != []
    ensures var m' := m.Set(c.buf[0].v, c.buf[0].n);
            LevelSide(m', p, c.(buf := c.buf[1..])) && LevelSide(m', Other(p), o) && m'.killed == m.killed
  {
  }

  lemma LevelDrain(s: State, p: Side)
    requires Level(s) && s.At(p).buf != []
    ensures Level(Drain(s, p)) && Drain(s, p).m.killed == s.m.killed
  {
    LevelSideDrain(s.m, p, s.At(p), s.At(Other(p)));
  }

  lemma AheadDrain(s: State, p: Side)
    requires Ahead(s, Other(p)) && s.At(p).buf != []
    ensures Ahead(Drain(s, p), Other(p)) && Drain(s, p).m.killed == s.m.killed
  {
  }

  lemma DrainKeeps(n: int, s: State, p: Side)
    requires Inv(n, s) && s.At(p).buf != []
    ensures Inv(n, Drain(s, p))
  {
    if Level(s) {
      LevelDrain(s, p);
    } else {
      AheadDrain(s, p);
    }
  }

  // ---- Whole runs with the fence ---------------------------------------------------------------

  lemma NextKeeps(n: int, s: State, s': State)
    requires Inv(n, s) && Next(MemoryBarrier, n, s, s')
    ensures Inv(n, s')
  {
    var p :| || (Enabled(MemoryBarrier, s, p) && s' == Step(n, s, p))
             || (s.At(p).buf != [] && s' == Drain(s, p));
    if Enabled(MemoryBarrier, s, p) && s' == Step(n, s, p) {
      StepKeeps(n, s, p);
    } else {
      DrainKeeps(n, s, p);
    }
  }

  /** In iteration k of o, p has loaded too: it is in the same iteration, or has finished it. */
  predicate PartnerLoaded(p: Cpu, o: Cpu) {
    || (p.i == o.i && Loaded(p.pc))
    || (p.i == o.i + 1 && Waiting(p.pc))
  }

  /** With the fence, in every state of every run: nobody aborts and killed stays 0; the two ready
      flags are never both set; both flags are 0 when both sides have just passed the gate; a pending
      check never finds both loads 0; and r2 and r4 are never both 0 in the same iteration. */
  lemma FencedRunIsSafe(n: int, run: seq<State>, i: nat)
    requires n >= 0 && Run(MemoryBarrier, n, run) && i < |run|
    ensures Inv(n, run[i])
    ensures run[i].m.killed == 0 && (forall p :: run[i].At(p).pc != Kill && run[i].At(p).pc != Aborted)
    ensures run[i].m.r2Ready == 0 || run[i].m.r4Ready == 0
    ensures run[i].parent.pc == run[i].child.pc == StoreMine ==> run[i].m.x == run[i].m.y == 0
    ensures forall p :: run[i].At(p).pc == Check ==> run[i].At(p).r != 0 || run[i].m.Get(Result(Other(p))) != 0
    ensures forall p :: Loaded(run[i].At(p).pc) && PartnerLoaded(run[i].At(Other(p)), run[i].At(p)) ==>
                          run[i].parent.r != 0 || run[i].child.r != 0
  {
    forall s, s' | Inv(n, s) && Next(MemoryBarrier, n, s, s') ensures Inv(n, s') {
      NextKeeps(n, s, s');
    }
    Invariance(Init, (s: State, s': State) => Next(MemoryBarrier, n, s, s'), (s: State) => Inv(n, s), run, i);
    NoKill(n, run[i]);
    Consequences(n, run[i]);
  }

  lemma Consequences(n: int, s: State)
    requires Inv(n, s)
    ensures s.m.r2Ready == 0 || s.m.r4Ready == 0
    ensures s.parent.pc == s.child.pc == StoreMine ==> s.m.x == s.m.y == 0
    ensures forall p :: s.At(p).pc == Check ==> s.At(p).r != 0 || s.m.Get(Result(Other(p))) != 0
    ensures forall p :: Loaded(s.At(p).pc) && PartnerLoaded(s.At(Other(p)), s.At(p)) ==>
        s.parent.r != 0 || s.child.r != 0
  {
    if Level(s) {
      assert s.lock != Held(Parent) || s.lock != Held(Child);
    } else if Ahead(s, Parent) {
      assert AheadSides(s.m, Parent, s.parent, s.child);
    } else {
      assert AheadSides(s.m, Child, s.child, s.parent);
    }
  }

  // ---- Progress ------------------------------------------------------------------------------------

  /** Twice the instructions left in the iteration; while the gate is closed, polling leads nowhere. */
  function Rank(ref: int, c: Cpu): int {
    match c.pc
    case LoopTest => 38 case Inc => 36
    case Spin => if ref < 2 * (c.i + 1) then 34 else 32
    case ReadKilled => if ref < 2 * (c.i + 1) then 34 else 33
    case StoreMine => 30 case Fence => 28 case LoadTheirs => 26 case Lock => 24
    case TestReady => 22 case Check => 20 case Kill => 18
    case ClearReady => 18 case ClearX => 16 case ClearY => 14 case UnlockSecond => 12
    case StoreResult => 18 case StoreReady => 16 case UnlockFirst => 14
    case Done => 0 case Aborted => 0
  }

  function Work(n: int, s: State): int {
    Rank(s.ref, s.parent) + |s.parent.buf| + 40 * (n - s.parent.i) + Rank(s.ref, s.child) + |s.child.buf|
        + 40 * (n - s.child.i)
  }

  /** A side that is polling a gate the other one has not reached. */
  predicate Polling(s: State, p: Side) {
    (s.At(p).pc == Spin || s.At(p).pc == ReadKilled) && s.ref < 2 * (s.At(p).i + 1)
  }

  lemma ParentWorks(n: int, s: State)
    requires Inv(n, s) && Enabled(MemoryBarrier, s, Parent)
    ensures Work(n, Step(n, s, Parent)) <= Work(n, s)
    ensures !Polling(s, Parent) ==> Work(n, Step(n, s, Parent)) < Work(n, s)
  {
  }

  lemma ChildWorks(n: int, s: State)
    requires Inv(n, s) && Enabled(MemoryBarrier, s, Child)
    ensures Work(n, Step(n, s, Child)) <= Work(n, s)
    ensures !Polling(s, Child) ==> Work(n, Step(n, s, Child)) < Work(n, s)
  {
  }

  /** Only polling fails to lower the work left, and nothing raises it. */
  lemma WorkDrops(n: int, s: State, p: Side)
    requires Inv(n, s) && Enabled(MemoryBarrier, s, p)
    ensures Work(n, Step(n, s, p)) <= Work(n, s)
    ensures !Polling(s, p) ==> Work(n, Step(n, s, p)) < Work(n, s)
  {
    if p == Parent {
      ParentWorks(n, s);
    } else {
      ChildWorks(n, s);
    }
  }

  /** Until both sides are done, some step lowers the work left: whatever happens, the program can
      still run to its end, and only polling steps can put that off. */
  lemma Progress(n: int, s: State)
    requires Inv(n, s)
    ensures || (s.parent.pc == s.child.pc == Done && s.ref == 2 * n)
            || exists s' :: Next(MemoryBarrier, n, s, s') && 0 <= Work(n, s') < Work(n, s)
  {
    if s.parent.buf != [] {
      DrainProgress(n, s, Parent);
    } else if s.child.buf != [] {
      DrainProgress(n, s, Child);
    } else if Enabled(MemoryBarrier, s, Parent) && !Polling(s, Parent) {
      StepProgress(n, s, Parent);
    } else if Enabled(MemoryBarrier, s, Child) && !Polling(s, Child) {
      StepProgress(n, s, Child);
    } else {
      NoKill(n, s);
      BothIdle(n, s);
    }
  }

  lemma DrainProgress(n: int, s: State, p: Side)
    requires Inv(n, s) && s.At(p).buf != []
    ensures exists s' :: Next(MemoryBarrier, n, s, s') && 0 <= Work(n, s') < Work(n, s)
  {
    var s' := Drain(s, p);
    assert Next(MemoryBarrier, n, s, s') && 0 <= Work(n, s') < Work(n, s);
  }

  lemma StepProgress(n: int, s: State, p: Side)
    requires Inv(n, s) && Enabled(MemoryBarrier, s, p) && !Polling(s, p)
    ensures exists s' :: Next(MemoryBarrier, n, s, s') && 0 <= Work(n, s') < Work(n, s)
  {
    WorkDrops(n, s, p);
    StepKeeps(n, s, p);
    var s' := Step(n, s, p);
    assert Next(MemoryBarrier, n, s, s') && 0 <= Work(n, s') < Work(n, s);
  }

  lemma BothIdle(n: int, s: State)
    requires Inv(n, s) && s.parent.buf == s.child.buf == []
    requires forall p :: s.At(p).pc != Kill && s.At(p).pc != Aborted
    requires forall p :: !Enabled(MemoryBarrier, s, p) || Polling(s, p)
    ensures s.parent.pc == s.child.pc == Done && s.ref == 2 * n
  {
    assert !Enabled(MemoryBarrier, s, Parent) || Polling(s, Parent);
    assert !Enabled(MemoryBarrier, s, Child) || Polling(s, Child);
  }

  /** A step of a side that polls. */
  ghost predicate Polls(n: int, s: State, s': State) { exists p :: Polling(s, p) && s' == Step(n, s, p) }

  /** How many steps of the run are anything else. */
  ghost function OtherSteps(n: int, run: seq<State>): nat {
    if |run| <= 1 then 0
    else OtherSteps(n, run[..|run| - 1]) + if Polls(n, run[|run| - 2], run[|run| - 1]) then 0 else 1
  }

  lemma NextWorks(n: int, s: State, s': State)
    requires Inv(n, s) && Next(MemoryBarrier, n, s, s')
    ensures Work(n, s') <= Work(n, s) - if Polls(n, s, s') then 0 else 1
  {
    var p :| || (Enabled(MemoryBarrier, s, p) && s' == Step(n, s, p))
             || (s.At(p).buf != [] && s' == Drain(s, p));
    if Enabled(MemoryBarrier, s, p) && s' == Step(n, s, p) {
      WorkDrops(n, s, p);
    } else {
      DrainWorks(n, s, p);
    }
  }

  lemma DrainWorks(n: int, s: State, p: Side)
    requires s.At(p).buf != []
    ensures Work(n, Drain(s, p)) == Work(n, s) - 1
  {
  }

  lemma {:induction false} StepsAndWork(n: int, run: seq<State>)
    requires n >= 0 && Run(MemoryBarrier, n, run)
    ensures OtherSteps(n, run) + Work(n, run[|run| - 1]) <= 80 * n + 76
  {
    if |run| > 1 {
      RunShrinks(Init, (s: State, s': State) => Next(MemoryBarrier, n, s, s'), run);
      StepsAndWork(n, run[..|run| - 1]);
      FencedRunIsSafe(n, run, |run| - 2);
      NextWorks(n, run[|run| - 2], run[|run| - 1]);
    }
  }

  /** In every run with the fence, all but at most 80 n + 76 steps are polls of a gate the other side has not
      reached; moves of buffered stores to memory count as steps. */
  lemma OnlyPollingGoesOn(n: int, run: seq<State>)
    requires n >= 0 && Run(MemoryBarrier, n, run)
    ensures OtherSteps(n, run) <= 80 * n + 76
  {
    StepsAndWork(n, run);
    FencedRunIsSafe(n, run, |run| - 1);
    WorkRemains(n, run[|run| - 1]);
  }

  lemma WorkRemains(n: int, s: State)
    requires Inv(n, s)
    ensures Work(n, s) >= 0
  {
  }

  // ---- What happens without the fence ----------------------------------------------------------------

  lemma Extend(mode: Mode, n: int, run: seq<State>, s: State) returns (longer: seq<State>)
    requires Run(mode, n, run) && Next(mode, n, run[|run| - 1], s)
    ensures Run(mode, n, longer) && longer[|longer| - 1] == s
  {
    longer := run + [s];
  }

  /** One side executes its next two instructions. */
  lemma Does(n: int, run: seq<State>, p: Side) returns (longer: seq<State>)
    requires Run(CompilerBarrier, n, run) && Enabled(CompilerBarrier, run[|run| - 1], p)
    requires Enabled(CompilerBarrier, Step(n, run[|run| - 1], p), p)
    ensures Run(CompilerBarrier, n, longer)
    ensures longer[|longer| - 1] == Step(n, Step(n, run[|run| - 1], p), p)
  {
    longer := Extend(CompilerBarrier, n, run, Step(n, run[|run| - 1], p));
    longer := Extend(CompilerBarrier, n, longer, Step(n, longer[|longer| - 1], p));
  }

  lemma Drains(n: int, run: seq<State>, p: Side) returns (longer: seq<State>)
    requires Run(CompilerBarrier, n, run) && run[|run| - 1].At(p).buf != []
    ensures Run(CompilerBarrier, n, longer) && longer[|longer| - 1] == Drain(run[|run| - 1], p)
  {
    longer := Extend(CompilerBarrier, n, run, Drain(run[|run| - 1], p));
  }

  /** With a compiler barrier both stores can wait in their buffers while both loads read 0. */
  lemma BothPassGate(n: int) returns (run: seq<State>)
    requires n >= 1
    ensures Run(CompilerBarrier, n, run)
    ensures run[|run| - 1] == State(ZERO, 2, Cpu(Spin, 0, 0, []), Cpu(Spin, 0, 0, []), Nobody)
  {
    var c := Cpu(LoopTest, 0, 0, []);
    run := [State(ZERO, 0, c, c, Nobody)];
    run := Does(n, run, Parent);
    run := Does(n, run, Child);
  }

  /** A side with only its own store in the buffer reads the other variable in memory. */
  lemma TheirsIsZero(p: Side)
    ensures Read(ZERO, [Store(Mine(p), 1)], Mine(Other(p))) == 0
  {
    assert [Store(Mine(p), 1)][..0] == [];
  }

  lemma ParentLoadsZero(n: int) returns (run: seq<State>)
    requires n >= 1
    ensures Run(CompilerBarrier, n, run)
    ensures run[|run| - 1] == State(ZERO, 2, Cpu(Lock, 0, 0, [Store(X, 1)]), Cpu(Spin, 0, 0, []), Nobody)
  {
    run := BothPassGate(n);
    run := Does(n, run, Parent);
    TheirsIsZero(Parent);
    run := Does(n, run, Parent);
  }

  lemma ChildStores(n: int) returns (run: seq<State>)
    requires n >= 1
    ensures Run(CompilerBarrier, n, run)
    ensures run[|run| - 1] == State(ZERO, 2, Cpu(Lock, 0, 0, [Store(X, 1)]), Cpu(Fence, 0, 0, [Store(Y, 1)]), Nobody)
  {
    run := ParentLoadsZero(n);
    run := Does(n, run, Child);
  }

  lemma BothLoadZero(n: int) returns (run: seq<State>)
    requires n >= 1
    ensures Run(CompilerBarrier, n, run)
    ensures run[|run| - 1] == State(ZERO, 2, Cpu(Lock, 0, 0, [Store(X, 1)]), Cpu(Lock, 0, 0, [Store(Y, 1)]), Nobody)
  {
    run := ChildStores(n);
    TheirsIsZero(Child);
    run := Does(n, run, Child);
  }

  lemma ParentStores(n: int) returns (run: seq<State>)
    requires n >= 1
    ensures Run(CompilerBarrier, n, run)
    ensures run[|run| - 1] == State(ZERO.(x := 1), 2, Cpu(UnlockFirst, 0, 0, [Store(R2, 0), Store(R2Ready, 1)]),
                                    Cpu(Lock, 0, 0, [Store(Y, 1)]), Held(Parent))
  {
    run := BothLoadZero(n);
    run := Drains(n, run, Parent);
    run := Does(n, run, Parent);
    assert run[|run| - 1].parent == Cpu(StoreResult, 0, 0, []);
    run := Does(n, run, Parent);
  }

  /** The parent publishes its 0 first. */
  lemma ParentPublishes(n: int) returns (run: seq<State>)
    requires n >= 1
    ensures Run(CompilerBarrier, n, run)
    ensures run[|run| - 1] == State(ZERO.(x := 1, r2Ready := 1), 2, Cpu(LoopTest, 1, 0, []),
        Cpu(Lock, 0, 0, [Store(Y, 1)]), Nobody)
  {
    run := ParentStores(n);
    run := Drains(n, run, Parent);
    run := Drains(n, run, Parent);
    run := Extend(CompilerBarrier, n, run, Step(n, run[|run| - 1], Parent));
  }

  /** The child, second to take the lock, then finds two 0s and aborts. */
  lemma UnfencedRunAborts(n: int) returns (run: seq<State>)
    requires n >= 1
    ensures Run(CompilerBarrier, n, run) && run[|run| - 1].child.pc == Aborted
    ensures run[|run| - 1] == State(ZERO.(x := 1, y := 1, r2Ready := 1), 2, Cpu(LoopTest, 1, 0, []),
                                    Cpu(Aborted, 0, 0, [Store(Killed, 1)]), Held(Child))
  {
    run := ParentPublishes(n);
    run := Drains(n, run, Child);
    run := Does(n, run, Child);
    assert run[|run| - 1].child == Cpu(Check, 0, 0, []);
    run := Does(n, run, Child);
  }

  lemma ParentAtGate(n: int) returns (run: seq<State>)
    requires n >= 2
    ensures Run(CompilerBarrier, n, run)
    ensures run[|run| - 1] == State(ZERO.(x := 1, y := 1, r2Ready := 1), 3, Cpu(ReadKilled, 1, 0, []),
                                    Cpu(Aborted, 0, 0, [Store(Killed, 1)]), Held(Child))
  {
    run := UnfencedRunAborts(n);
    run := Does(n, run, Parent);
    run := Extend(CompilerBarrier, n, run, Step(n, run[|run| - 1], Parent));
  }

  /** The parent, waiting at the gate of its next iteration, reads killed and aborts too. */
  lemma BothAbort(n: int) returns (run: seq<State>)
    requires n >= 2
    ensures Run(CompilerBarrier, n, run) && run[|run| - 1].child.pc == run[|run| - 1].parent.pc == Aborted
  {
    run := ParentAtGate(n);
    run := Drains(n, run, Child);
    run := Extend(CompilerBarrier, n, run, Step(n, run[|run| - 1], Parent));
  }

  /** The fence is what the loop needs: no run aborts exactly if the barrier is the full fence. */
  lemma FenceDecides(mode: Mode, n: int)
    requires n >= 1
    ensures mode == MemoryBarrier <==>
            forall run: seq<State>, i: nat, p | Run(mode, n, run) && i < |run| :: run[i].At(p).pc != Aborted
  {
    if mode == MemoryBarrier {
      forall run: seq<State>, i: nat, p | Run(mode, n, run) && i < |run| ensures run[i].At(p).pc != Aborted {
        FencedRunIsSafe(n, run, i);
      }
    } else {
      var run := UnfencedRunAborts(n);
      assert run[|run| - 1].At(Child).pc == Aborted;
    }
  }
}
