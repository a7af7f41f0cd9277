/** The dining philosophers: philosopher 0 takes its right fork first and all others their left one,
    so that everybody takes the lower-numbered fork before the higher-numbered one. */
module Philosophers {
  import opened Sums
  import opened Runs

  datatype Pc =
    | Hungry       // hungerOfPhylosophs[name] > 0 ?
    | TakeFirst    // lock the first fork
    | TakeSecond   // lock the second one
    | Eat          // hungerOfPhylosophs[name]--
    | PutLeft
    | PutRight
    | Gone

  /** meals counts how often it has eaten; no step reads it. */
  datatype Philosopher = Philosopher(pc: Pc, hunger: int, meals: nat)

  datatype Fork = Free | Held(name: nat)

  datatype State = State(forks: seq<Fork>, table: seq<Philosopher>)

  function Left(n: nat, name: nat): int { if name == 0 then n - 1 else name - 1 }

  function Right(name: nat): int { name }

  function First(n: nat, name: nat): int { if name == 0 then Right(name) else Left(n, name) }

  function Second(n: nat, name: nat): int { if name == 0 then Left(n, name) else Right(name) }

  ghost predicate Init(n: nat, hunger: int, s: State) {
    && |s.forks| == |s.table| == n
    && (forall k | 0 <= k < n :: s.forks[k] == Free)
    && (forall p | 0 <= p < n :: s.table[p] == Philosopher(Hungry, hunger, 0))
  }

  ghost predicate Seated(s: State) { |s.forks| == |s.table| }

  predicate Enabled(s: State, p: nat)
    requires |s.forks| == |s.table|
  {
    && p < |s.table|
    && match s.table[p].pc
       case TakeFirst => s.forks[First(|s.table|, p)] == Free
       case TakeSecond => s.forks[Second(|s.table|, p)] == Free
       case Gone => false
       case _ => true
  }

  function Advance(c: Philosopher): Philosopher {
    match c.pc
    case Hungry => c.(pc := if c.hunger > 0 then TakeFirst else Gone)
    case TakeFirst => c.(pc := TakeSecond)
    case TakeSecond => c.(pc := Eat)
    case Eat => c.(pc := PutLeft, hunger := c.hunger - 1, meals := c.meals + 1)
    case PutLeft => c.(pc := PutRight)
    case PutRight => c.(pc := Hungry)
    case Gone => c
  }

  function Forks(s: State, p: nat): seq<Fork>
    requires |s.forks| == |s.table| && p < |s.table|
  {
    var n := |s.table|;
    match s.table[p].pc
    case TakeFirst => s.forks[First(n, p) := Held(p)]
    case TakeSecond => s.forks[Second(n, p) := Held(p)]
    case PutLeft => s.forks[Left(n, p) := Free]
    case PutRight => s.forks[Right(p) := Free]
    case _ => s.forks
  }

  function Step(s: State, p: nat): State
    requires |s.forks| == |s.table| && p < |s.table|
  {
    State(Forks(s, p), s.table[p := Advance(s.table[p])])
  }

  ghost predicate Next(s: State, s': State) {
    Seated(s) && exists p: nat :: Enabled(s, p) && s' == Step(s, p)
  }

  ghost predicate Moves(s: State) { exists s' :: Next(s, s') }

  ghost predicate Run(n: nat, hunger: int, run: seq<State>) {
    IsRun((s: State) => Init(n, hunger, s), Next, run)
  }

  lemma Starts(n: nat, hunger: int)
    ensures Run(n, hunger, [State(seq(n, _ => Free), seq(n, _ => Philosopher(Hungry, hunger, 0)))])
  {
  }

  predicate Final(s: State) { forall p | 0 <= p < |s.table| :: s.table[p].pc == Gone }

  // ---- Who holds which fork ----------------------------------------------------------------

  predicate HoldsFirst(pc: Pc) { pc == TakeSecond || pc == Eat || pc == PutLeft }

  predicate HoldsLeft(p: nat, pc: Pc) { if p == 0 then pc == Eat || pc == PutLeft else HoldsFirst(pc) }

  predicate HoldsRight(p: nat, pc: Pc) {
    pc == PutRight || if p == 0 then HoldsFirst(pc) else pc == Eat || pc == PutLeft
  }

  predicate Holds(n: nat, p: nat, pc: Pc, k: int) {
    (k == Left(n, p) && HoldsLeft(p, pc)) || (k == Right(p) && HoldsRight(p, pc))
  }

  /** A fork is held by a philosopher exactly if its position in the meal says so. */
  ghost predicate Etiquette(s: State) {
    && Seated(s)
    && (forall k | 0 <= k < |s.forks| && s.forks[k].Held? :: s.forks[k].name < |s.table|)
    && forall k, p: nat | 0 <= k < |s.forks| && p < |s.table| ::
         s.forks[k] == Held(p) <==> Holds(|s.table|, p, s.table[p].pc, k)
  }

  /** Every meal takes one off the hunger, and it eats only while it is hungry. */
  predicate Appetite(hunger: int, c: Philosopher) {
    && c.meals + c.hunger == hunger
    && (c.hunger == hunger || 0 <= c.hunger < hunger)
    && (c.pc == Gone ==> c.hunger <= 0)
    && (c.pc == TakeFirst || c.pc == TakeSecond || c.pc == Eat ==> c.hunger > 0)
  }

  ghost predicate Inv(n: nat, hunger: int, s: State) {
    Etiquette(s) && |s.table| == n && forall p | 0 <= p < n :: Appetite(hunger, s.table[p])
  }

  lemma EtiquetteKept(s: State, p: nat)
    requires Etiquette(s) && |s.table| >= 2 && Enabled(s, p)
    ensures Etiquette(Step(s, p))
  {
    var s' := Step(s, p);
    forall k, q: nat | 0 <= k < |s'.forks| && q < |s'.table|
      ensures s'.forks[k] == Held(q) <==> Holds(|s.table|, q, s'.table[q].pc, k)
    {
      assert s.forks[k] == Held(q) <==> Holds(|s.table|, q, s.table[q].pc, k);
      assert s.forks[k] == Held(p) <==> Holds(|s.table|, p, s.table[p].pc, k);
    }
  }

  /** A philosopher eats from taking its second fork until it puts the first one down. */
  predicate Eating(s: State, p: nat)
    requires p < |s.table|
  {
    s.table[p].pc == Eat || s.table[p].pc == PutLeft
  }

  /** Two neighbours share a fork, so they never eat at the same time. */
  lemma NeighboursTakeTurns(s: State, p: nat, q: nat)
    requires Etiquette(s) && |s.table| >= 2 && p < |s.table| && q < |s.table| && p != q
    requires Left(|s.table|, q) == Right(p)
    ensures !(Eating(s, p) && Eating(s, q))
  {
    var k := Right(p);
    assert s.forks[k] == Held(p) <==> Holds(|s.table|, p, s.table[p].pc, k);
    assert s.forks[k] == Held(q) <==> Holds(|s.table|, q, s.table[q].pc, k);
  }

  // ---- Somebody can always move -------------------------------------------------------------

  /** Somebody is between taking a fork and putting the last one down: the chain of philosophers
      waiting for each other's forks goes up in fork numbers, so it ends. */
  lemma {:induction false} ChainEnds(s: State, p: nat) returns (q: nat)
    requires Etiquette(s) && |s.table| >= 2 && p < |s.table|
    requires s.table[p].pc != Hungry && s.table[p].pc != TakeFirst && s.table[p].pc != Gone
    ensures Enabled(s, q)
    decreases |s.table| - Second(|s.table|, p)
  {
    q := p;
    var k := Second(|s.table|, p);
    if s.table[p].pc == TakeSecond && s.forks[k] != Free {
      var holder := s.forks[k].name;
      assert Holds(|s.table|, holder, s.table[holder].pc, k);
      assert holder != p;
      if s.table[holder].pc == TakeSecond {
        q := ChainEnds(s, holder);
      } else {
        q := holder;
      }
    }
  }

  lemma NotStuck(n: nat, hunger: int, s: State)
    requires Inv(n, hunger, s) && n >= 2
    ensures Final(s) || Moves(s)
  {
    if !Final(s) {
      var p: nat :| p < |s.table| && s.table[p].pc != Gone;
      var q := p;
      if s.table[p].pc == TakeFirst && s.forks[First(n, p)] != Free {
        var k := First(n, p);
        q := s.forks[k].name;
        assert Holds(n, q, s.table[q].pc, k);
        q := ChainEnds(s, q);
      } else if s.table[p].pc == TakeSecond {
        q := ChainEnds(s, p);
      }
      assert Next(s, Step(s, q));
    }
  }

  // ---- Whole runs ------------------------------------------------------------------------------

  /** The steps a philosopher has still to take: six for every meal, and one to leave. */
  function Work(c: Philosopher): int {
    6 * (if c.hunger > 0 then c.hunger else 0)
    + match c.pc case Hungry => 1 case TakeFirst => 0 case TakeSecond => -1 case Eat => -2
                 case PutLeft => 3 case PutRight => 2 case Gone => 0
  }

  function Steps(n: nat, hunger: int): int { n * (6 * (if hunger > 0 then hunger else 0) + 1) }

  lemma StepKeeps(n: nat, hunger: int, s: State, s': State)
    requires Inv(n, hunger, s) && n >= 2 && Next(s, s')
    ensures Inv(n, hunger, s') && Sum(Work, s'.table) == Sum(Work, s.table) - 1
  {
    var p: nat :| Enabled(s, p) && s' == Step(s, p);
    EtiquetteKept(s, p);
    SumUpdate(Work, s.table, p, Advance(s.table[p]));
  }

  lemma FirstWork(n: nat, hunger: int, s: State)
    requires Init(n, hunger, s)
    ensures Sum(Work, s.table) == Steps(n, hunger)
  {
    var each := 6 * (if hunger > 0 then hunger else 0) + 1;
    SumBounds(Work, s.table, each, each);
  }

  lemma RunInv(n: nat, hunger: int, run: seq<State>, i: nat)
    requires n >= 2 && Run(n, hunger, run) && i < |run|
    ensures Inv(n, hunger, run[i])
  {
    var init, inv := (s: State) => Init(n, hunger, s), (s: State) => Inv(n, hunger, s);
    forall s, s' | inv(s) && Next(s, s') ensures inv(s') {
      StepKeeps(n, hunger, s, s');
    }
    Invariance(init, Next, inv, run, i);
  }

  /** Every step is one of those that the meals take. */
  lemma {:induction false} StepsLeft(n: nat, hunger: int, run: seq<State>, i: nat)
    requires n >= 2 && Run(n, hunger, run) && i < |run|
    ensures i + Sum(Work, run[i].table) == Steps(n, hunger)
  {
    if i == 0 {
      FirstWork(n, hunger, run[0]);
    } else {
      StepsLeft(n, hunger, run, i - 1);
      RunInv(n, hunger, run, i - 1);
      StepKeeps(n, hunger, run[i - 1], run[i]);
    }
  }

  lemma RunKeeps(n: nat, hunger: int, run: seq<State>, i: nat)
    requires n >= 2 && Run(n, hunger, run) && i < |run|
    ensures Inv(n, hunger, run[i]) && i <= Steps(n, hunger)
  {
    RunInv(n, hunger, run, i);
    StepsLeft(n, hunger, run, i);
    SumNonNegative(Work, run[i].table);
  }

  /** With at least two philosophers, in every state of every run: somebody can move unless all are
      done, neighbours never eat together, everybody's meals and hunger add up to the hunger at the start, and
      the run is no longer than that takes. */
  lemma EveryState(n: nat, hunger: int, run: seq<State>, i: nat)
    requires n >= 2 && Run(n, hunger, run) && i < |run|
    ensures Inv(n, hunger, run[i])
    ensures Final(run[i]) || Moves(run[i])
    ensures forall p: nat, q: nat | p < n && q < n && p != q && Left(n, q) == Right(p) ::
        !(Eating(run[i], p) && Eating(run[i], q))
    ensures forall p | 0 <= p < n :: run[i].table[p].meals + run[i].table[p].hunger == hunger
    ensures i <= Steps(n, hunger)
  {
    RunKeeps(n, hunger, run, i);
    NotStuck(n, hunger, run[i]);
    forall p: nat, q: nat | p < n && q < n && p != q && Left(n, q) == Right(p)
      ensures !(Eating(run[i], p) && Eating(run[i], q))
    {
      NeighboursTakeTurns(run[i], p, q);
    }
  }

  /** A finished run leaves nobody hungry and every fork free; everybody has eaten as often as it was hungry, and
      the run has six steps for each meal and one for each philosopher. */
  lemma FinalState(n: nat, hunger: int, run: seq<State>)
    requires n >= 2 && hunger >= 0 && Run(n, hunger, run) && Final(run[|run| - 1])
    ensures var s := run[|run| - 1];
            && |s.table| == |s.forks| == n
            && (forall p | 0 <= p < n :: s.table[p].hunger == 0 && s.table[p].meals == hunger && s.forks[p] == Free)
            && |run| - 1 == n * (6 * hunger + 1)
  {
    EveryState(n, hunger, run, |run| - 1);
    var s := run[|run| - 1];
    forall k | 0 <= k < n ensures s.forks[k] == Free {
      assert s.forks[k].Held? ==> Holds(n, s.forks[k].name, s.table[s.forks[k].name].pc, k);
    }
    StepsLeft(n, hunger, run, |run| - 1);
    SumBounds(Work, s.table, 0, 0);
  }

  /** A single philosopher has the same mutex on both sides and waits for itself. */
  lemma LonePhilosopherWaits(hunger: int) returns (run: seq<State>)
    requires hunger > 0
    ensures Run(1, hunger, run) && !Final(run[|run| - 1]) && !Moves(run[|run| - 1])
  {
    var s0 := State([Free], [Philosopher(Hungry, hunger, 0)]);
    var s1 := Step(s0, 0);
    var s2 := Step(s1, 0);
    assert s2 == State([Held(0)], [Philosopher(TakeSecond, hunger, 0)]);
    assert Next(s0, s1) && Next(s1, s2);
    run := [s0, s1, s2];
    assert s2.table[0].pc != Gone && s2.forks[Second(1, 0)] == Held(0);
    assert forall p: nat :: !Enabled(s2, p);
  }

  /** Hungry philosophers never get stuck exactly if there are at least two of them. */
  lemma TwoAreNeeded(n: nat, hunger: int)
    requires n >= 1 && hunger > 0
    ensures n >= 2 <==> forall run | Run(n, hunger, run) :: Final(run[|run| - 1]) || Moves(run[|run| - 1])
  {
    if n >= 2 {
      forall run | Run(n, hunger, run)
        ensures Final(run[|run| - 1]) || Moves(run[|run| - 1])
      {
        EveryState(n, hunger, run, |run| - 1);
      }
    } else {
      var run := LonePhilosopherWaits(hunger);
    }
  }
}
