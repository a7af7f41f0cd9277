/** Senders that each send the numbers 0 to kinds - 1 to an actor that counts them, and the main thread
    that sends -1 when all senders are joined. The queue of the actor is the bounded sequence that the
    ring buffer stands for. */
module Actor {
  import opened Runs
  import opened Sums

  datatype Setup = Setup(senders: nat, kinds: nat, capacity: nat)

  const STOP := -1

  /** The places of a thread that sends messages in actor_send_to and between its calls. */
  datatype Pc =
    | Next      // is there another message? (main: are all senders joined?)
    | Lock
    | Enqueue   // queue_enqueue, which drops the message if the queue is full
    | Signal    // pthread_cond_signal, with the mutex held
    | Unlock
    | Exited

  datatype Sender = Sender(pc: Pc, i: nat)

  datatype ActorPc =
    | ActorLock
    | Test         // queue_is_empty ?
    | Sleep        // in pthread_cond_wait
    | Relock       // woken, needs the mutex again
    | TakeAll      // queue_dequeueall
    | ActorUnlock
    | Drain        // vector_pop_back until the batch is empty
    | Judge        // exit_flag ?
    | Stopped

  datatype Actor = Actor(pc: ActorPc, batch: seq<int>, exitFlag: bool, counts: seq<int>)

  datatype Owner = Nobody | BySender(t: nat) | ByMain | ByActor

  /** lost lists the messages that queue_enqueue dropped, spurious counts wake-ups without a signal; no
      step reads them. */
  datatype State = State(lock: Owner, queue: seq<int>, senders: seq<Sender>, main: Sender, actor: Actor,
                         lost: seq<int>, spurious: nat)

  ghost predicate Init(p: Setup, s: State) {
    && s.lock == Nobody && s.queue == [] && s.lost == [] && s.spurious == 0
    && |s.senders| == p.senders && (forall t | 0 <= t < p.senders :: s.senders[t] == Sender(Next, 0))
    && s.main == Sender(Next, 0)
    && s.actor == Actor(ActorLock, [], false, seq(p.kinds, _ => 0))
  }

  // ---- Steps ---------------------------------------------------------------------------------------

  function SendAdvance(quota: nat, c: Sender): Sender {
    match c.pc
    case Next => c.(pc := if c.i < quota then Lock else Exited)
    case Lock => c.(pc := Enqueue)
    case Enqueue => c.(pc := Signal)
    case Signal => c.(pc := Unlock)
    case Unlock => Sender(Next, c.i + 1)
    case Exited => c
  }

  function Woken(a: Actor): Actor { if a.pc == Sleep then a.(pc := Relock) else a }

  /** What a thread at pc does to the rest of the state when it sends x. */
  function SendEffect(p: Setup, s: State, pc: Pc, me: Owner, x: int): State {
    match pc
    case Lock => s.(lock := me)
    case Enqueue => if |s.queue| < p.capacity then s.(queue := s.queue + [x]) else s.(lost := s.lost + [x])
    case Signal => s.(actor := Woken(s.actor))
    case Unlock => s.(lock := Nobody)
    case _ => s
  }

  predicate SendActive(s: State, pc: Pc) { if pc == Lock then s.lock == Nobody else pc != Exited }

  function SenderEffect(p: Setup, s: State, t: nat): State
    requires t < |s.senders|
  {
    var c := s.senders[t];
    SendEffect(p, s, c.pc, BySender(t), c.i).(senders := s.senders[t := SendAdvance(p.kinds, c)])
  }

  predicate SenderActive(s: State, t: nat) { t < |s.senders| && SendActive(s, s.senders[t].pc) }

  /** pthread_join on the senders, and in the end on the actor. */
  ghost predicate Joined(s: State) {
    if s.main.i == 0 then forall t | 0 <= t < |s.senders| :: s.senders[t].pc == Exited else s.actor.pc == Stopped
  }

  ghost predicate MainActive(s: State) { SendActive(s, s.main.pc) && (s.main.pc == Next ==> Joined(s)) }

  function MainEffect(p: Setup, s: State): State {
    SendEffect(p, s, s.main.pc, ByMain, STOP).(main := SendAdvance(1, s.main))
  }

  /** The last element of the batch is counted, or sets the exit flag. */
  function Popped(a: Actor): Actor
    requires a.batch != []
  {
    var x, rest := a.batch[|a.batch| - 1], a.batch[..|a.batch| - 1];
    if x == STOP then a.(batch := rest, exitFlag := true)
    else if 0 <= x < |a.counts| then a.(batch := rest, counts := a.counts[x := a.counts[x] + 1])
    else a.(batch := rest)
  }

  function ActorAdvance(a: Actor, queue: seq<int>): Actor {
    match a.pc
    case ActorLock => a.(pc := Test)
    case Test => a.(pc := if queue == [] then Sleep else TakeAll)
    case Relock => a.(pc := Test)
    case TakeAll => a.(pc := ActorUnlock, batch := queue)
    case ActorUnlock => a.(pc := Drain)
    case Drain => if a.batch == [] then a.(pc := Judge) else Popped(a)
    case Judge => if a.exitFlag then a.(pc := Stopped) else a.(pc := ActorLock)
    case Sleep | Stopped => a
  }

  predicate ActorActive(s: State) {
    match s.actor.pc
    case ActorLock | Relock => s.lock == Nobody
    case Sleep | Stopped => false
    case _ => true
  }

  function ActorEffect(s: State): State {
    var s' := s.(actor := ActorAdvance(s.actor, s.queue));
    match s.actor.pc
    case ActorLock | Relock => s'.(lock := ByActor)
    case Test => if s.queue == [] then s'.(lock := Nobody) else s'
    case TakeAll => s'.(queue := [])
    case ActorUnlock => s'.(lock := Nobody)
    case _ => s'
  }

  ghost predicate SendStep(p: Setup, s: State, s': State) {
    || (exists t: nat :: SenderActive(s, t) && s' == SenderEffect(p, s, t))
    || (MainActive(s) && s' == MainEffect(p, s))
  }

  ghost predicate Step(p: Setup, s: State, s': State) {
    SendStep(p, s, s') || (ActorActive(s) && s' == ActorEffect(s))
  }

  ghost predicate SpuriousWakeup(s: State, s': State) {
    s.actor.pc == Sleep && s' == s.(actor := Woken(s.actor), spurious := s.spurious + 1)
  }

  ghost predicate NextState(p: Setup, s: State, s': State) { Step(p, s, s') || SpuriousWakeup(s, s') }

  /** A sleeping actor may wake up at any time, and has to lock the mutex again then. */
  lemma MayWake(p: Setup, s: State)
    requires s.actor.pc == Sleep
    ensures NextState(p, s, s.(actor := s.actor.(pc := Relock), spurious := s.spurious + 1))
  {
  }

  ghost predicate Run(p: Setup, run: seq<State>) {
    IsRun((s: State) => Init(p, s), (s: State, s': State) => NextState(p, s, s'), run)
  }

  lemma Starts(p: Setup)
    ensures Run(p, [State(Nobody, [], seq(p.senders, _ => Sender(Next, 0)), Sender(Next, 0),
                          Actor(ActorLock, [], false, seq(p.kinds, _ => 0)), [], 0)])
  {
  }

  /** Nobody has a step but for spurious wake-ups. */
  ghost predicate Quiet(s: State) {
    !MainActive(s) && !ActorActive(s) && forall t: nat :: !SenderActive(s, t)
  }

  // ---- Invariants ----------------------------------------------------------------------------------

  predicate SendHolds(pc: Pc) { pc == Enqueue || pc == Signal || pc == Unlock }

  predicate ActorHolds(pc: ActorPc) { pc == Test || pc == TakeAll || pc == ActorUnlock }

  ghost predicate Exclusion(s: State) {
    && (forall t: nat | t < |s.senders| :: SendHolds(s.senders[t].pc) <==> s.lock == BySender(t))
    && (SendHolds(s.main.pc) <==> s.lock == ByMain)
    && (ActorHolds(s.actor.pc) <==> s.lock == ByActor)
    && (s.lock.BySender? ==> s.lock.t < |s.senders|)
  }

  /** How many messages a thread has passed to queue_enqueue. */
  function Sent(c: Sender): int { if c.pc == Signal || c.pc == Unlock then c.i + 1 else c.i }

  /** Whether a thread has passed on the message v. */
  function HasSent(v: int): Sender -> int { (c: Sender) => if Sent(c) > v then 1 else 0 }

  predicate Paced(quota: nat, c: Sender) {
    && c.i <= quota && (c.pc != Next && c.pc != Exited ==> c.i < quota) && (c.pc == Exited ==> c.i == quota)
  }

  ghost predicate Shape(p: Setup, s: State) {
    && |s.senders| == p.senders && (forall t | 0 <= t < p.senders :: Paced(p.kinds, s.senders[t]))
    && Paced(1, s.main) && |s.actor.counts| == p.kinds && (s.main.pc == Exited ==> s.actor.pc == Stopped)
    && (s.main.i > 0 || s.main.pc != Next ==> forall t | 0 <= t < p.senders :: s.senders[t].pc == Exited)
  }

  /** What was sent is queued, in the batch, counted, or lost. */
  ghost predicate Counted(p: Setup, s: State, v: int) {
    0 <= v < |s.actor.counts| ==>
      Sum(HasSent(v), s.senders)
      == multiset(s.queue)[v] + multiset(s.actor.batch)[v] + s.actor.counts[v] + multiset(s.lost)[v]
  }

  /** Every message is -1, the stop message, or an index of the counts. */
  predicate Indexed(p: Setup, xs: seq<int>) { forall k | 0 <= k < |xs| :: xs[k] == -1 || 0 <= xs[k] < p.kinds }

  predicate InBounds(p: Setup, s: State) { Indexed(p, s.queue) && Indexed(p, s.actor.batch) && Indexed(p, s.lost) }

  /** The stop message is behind all others: it ends the queue, or the queue is empty and it is in the
      last batch or has set the flag, unless it was lost. */
  ghost predicate StopLast(s: State) {
    && (Sent(s.main) == 0 ==> STOP !in s.lost)
    && if Sent(s.main) == 0 || STOP in s.lost then STOP !in s.queue && STOP !in s.actor.batch && !s.actor.exitFlag
       else if s.queue == [] then STOP in s.actor.batch || s.actor.exitFlag
       else s.queue[|s.queue| - 1] == STOP && STOP !in s.actor.batch && !s.actor.exitFlag
  }

  /** The batch is in use only between taking it and judging it. */
  ghost predicate Emptied(a: Actor) {
    match a.pc
    case ActorUnlock | Drain => true
    case Judge => a.batch == []
    case Stopped => a.batch == [] && a.exitFlag
    case _ => a.batch == [] && !a.exitFlag
  }

  /** A number is lost only if the queue has no room for all numbers, the stop message only if it has
      none for one message more. */
  predicate Excusable(p: Setup, x: int) {
    if x == STOP then p.capacity <= p.senders * p.kinds else p.capacity < p.senders * p.kinds
  }

  /** The queue holds no more than was sent, so that only a small one is ever full. */
  ghost predicate Fits(p: Setup, s: State) {
    && |s.queue| <= Sum(Sent, s.senders) + Sent(s.main) && |s.queue| <= p.capacity
    && (p.capacity == 0 ==> s.actor.batch == [] && !s.actor.exitFlag)
    && forall k | 0 <= k < |s.lost| :: Excusable(p, s.lost[k])
  }

  /** If the actor sleeps, the queue is empty or a signal is due. */
  ghost predicate NoLostWakeup(s: State) {
    && (s.actor.pc == Sleep ==>
          s.queue == [] || s.main.pc == Signal || exists t: nat :: t < |s.senders| && s.senders[t].pc == Signal)
    && (s.actor.pc == TakeAll ==> s.queue != [])
  }

  ghost predicate Inv(p: Setup, s: State) {
    && Exclusion(s) && Shape(p, s) && (forall v :: Counted(p, s, v)) && StopLast(s) && Emptied(s.actor)
    && Fits(p, s) && NoLostWakeup(s) && InBounds(p, s)
  }

  // ---- Every step keeps them -----------------------------------------------------------------------

  lemma InitInv(p: Setup, s: State)
    requires Init(p, s)
    ensures Inv(p, s)
  {
    SumNonNegative(Sent, s.senders);
    forall v ensures Counted(p, s, v) {
      if 0 <= v {
        SumBounds(HasSent(v), s.senders, 0, 0);
      }
    }
  }

  lemma RoomForSender(p: Setup, s: State, t: nat)
    requires Shape(p, s) && Fits(p, s) && t < p.senders && s.senders[t].pc == Enqueue
    ensures |s.queue| < p.senders * p.kinds
  {
    var all := s.senders[t := Sender(Exited, p.kinds)];
    SumUpdate(Sent, s.senders, t, Sender(Exited, p.kinds));
    SumBounds(Sent, all, 0, p.kinds);
  }

  lemma RoomForMain(p: Setup, s: State)
    requires Shape(p, s) && Fits(p, s) && s.main.pc == Enqueue
    ensures |s.queue| <= p.senders * p.kinds
  {
    SumBounds(Sent, s.senders, 0, p.kinds);
  }

  /** A message that is sent is queued or lost. */
  lemma SentOnce(p: Setup, s: State, pc: Pc, me: Owner, x: int, v: int)
    ensures var s' := SendEffect(p, s, pc, me, x);
            && s'.actor.counts == s.actor.counts && s'.actor.batch == s.actor.batch
            && multiset(s'.queue)[v] + multiset(s'.lost)[v]
               == multiset(s.queue)[v] + multiset(s.lost)[v] + if pc == Enqueue && x == v then 1 else 0
  {
    if pc == Enqueue && |s.queue| < p.capacity {
      assert multiset(s.queue + [x]) == multiset(s.queue) + multiset{x};
    } else if pc == Enqueue {
      assert multiset(s.lost + [x]) == multiset(s.lost) + multiset{x};
    }
  }

  lemma SenderCounted(p: Setup, s: State, t: nat, v: int)
    requires Shape(p, s) && t < p.senders && Counted(p, s, v)
    ensures Counted(p, SenderEffect(p, s, t), v)
  {
    var c := s.senders[t];
    SumUpdate(HasSent(v), s.senders, t, SendAdvance(p.kinds, c));
    SentOnce(p, s, c.pc, BySender(t), c.i, v);
  }

  lemma SenderFits(p: Setup, s: State, t: nat)
    requires Shape(p, s) && t < p.senders && Fits(p, s)
    requires s.senders[t].pc == Enqueue ==> |s.queue| < p.senders * p.kinds
    ensures Fits(p, SenderEffect(p, s, t))
  {
    SumUpdate(Sent, s.senders, t, SendAdvance(p.kinds, s.senders[t]));
  }

  lemma SenderShape(p: Setup, s: State, t: nat)
    requires Shape(p, s) && Exclusion(s) && Emptied(s.actor) && SenderActive(s, t)
    ensures Shape(p, SenderEffect(p, s, t)) && Exclusion(SenderEffect(p, s, t)) && Emptied(SenderEffect(p, s, t).actor)
  {
    var s' := SenderEffect(p, s, t);
    assert SendHolds(s.senders[t].pc) <==> s.lock == BySender(t);
    forall u: nat | u < |s'.senders| ensures SendHolds(s'.senders[u].pc) <==> s'.lock == BySender(u) {
      assert SendHolds(s.senders[u].pc) <==> s.lock == BySender(u);
    }
  }

  lemma SenderAwake(p: Setup, s: State, t: nat)
    requires Exclusion(s) && SenderActive(s, t) && NoLostWakeup(s)
    ensures NoLostWakeup(SenderEffect(p, s, t))
  {
    var s' := SenderEffect(p, s, t);
    assert SendHolds(s.senders[t].pc) <==> s.lock == BySender(t);
    if s'.actor.pc == Sleep && s'.queue != [] {
      if s.queue == [] {
        assert s'.senders[t].pc == Signal;
      } else if s.main.pc != Signal {
        var u: nat :| u < |s.senders| && s.senders[u].pc == Signal;
        assert SendHolds(s.senders[u].pc) <==> s.lock == BySender(u);
        assert u != t;
        assert s'.senders[u].pc == Signal;
      }
    }
  }

  lemma SenderBounds(p: Setup, s: State, t: nat)
    requires Shape(p, s) && InBounds(p, s) && SenderActive(s, t)
    ensures InBounds(p, SenderEffect(p, s, t))
  {
  }

  lemma SenderKeeps(p: Setup, s: State, t: nat)
    requires Inv(p, s) && SenderActive(s, t)
    ensures Inv(p, SenderEffect(p, s, t))
  {
    var c := s.senders[t];
    if c.pc == Enqueue {
      RoomForSender(p, s, t);
    }
    forall v ensures Counted(p, SenderEffect(p, s, t), v) {
      assert Counted(p, s, v);
      SenderCounted(p, s, t, v);
    }
    SenderFits(p, s, t);
    SenderShape(p, s, t);
    SenderAwake(p, s, t);
    SenderBounds(p, s, t);
    assert Sent(s.main) == 0;
  }

  lemma MainCounted(p: Setup, s: State, v: int)
    requires Counted(p, s, v)
    ensures Counted(p, MainEffect(p, s), v)
  {
    SentOnce(p, s, s.main.pc, ByMain, STOP, v);
  }

  lemma MainShape(p: Setup, s: State)
    requires Shape(p, s) && Exclusion(s) && Emptied(s.actor) && MainActive(s)
    ensures Shape(p, MainEffect(p, s)) && Exclusion(MainEffect(p, s)) && Emptied(MainEffect(p, s).actor)
  {
  }

  lemma MainRest(p: Setup, s: State)
    requires Exclusion(s) && Shape(p, s) && MainActive(s) && StopLast(s) && Fits(p, s) && NoLostWakeup(s)
    requires s.main.pc == Enqueue ==> |s.queue| <= p.senders * p.kinds
    ensures StopLast(MainEffect(p, s)) && Fits(p, MainEffect(p, s)) && NoLostWakeup(MainEffect(p, s))
  {
  }

  lemma MainBounds(p: Setup, s: State)
    requires InBounds(p, s)
    ensures InBounds(p, MainEffect(p, s))
  {
  }

  lemma MainKeeps(p: Setup, s: State)
    requires Inv(p, s) && MainActive(s)
    ensures Inv(p, MainEffect(p, s))
  {
    if s.main.pc == Enqueue {
      RoomForMain(p, s);
    }
    forall v ensures Counted(p, MainEffect(p, s), v) {
      assert Counted(p, s, v);
      MainCounted(p, s, v);
    }
    MainShape(p, s);
    MainRest(p, s);
    MainBounds(p, s);
  }

  /** The popped message moves from the batch to its count. */
  lemma PoppedCounted(a: Actor, v: int)
    requires a.batch != [] && 0 <= v < |a.counts|
    ensures |Popped(a).counts| == |a.counts|
    ensures multiset(Popped(a).batch)[v] + Popped(a).counts[v] == multiset(a.batch)[v] + a.counts[v]
  {
    var x, rest := a.batch[|a.batch| - 1], a.batch[..|a.batch| - 1];
    assert a.batch == rest + [x];
    assert multiset(a.batch) == multiset(rest) + multiset{x};
  }

  lemma ActorCounted(p: Setup, s: State, v: int)
    requires Shape(p, s) && Counted(p, s, v) && (s.actor.pc == TakeAll ==> s.actor.batch == [])
    ensures Counted(p, ActorEffect(s), v)
  {
    if s.actor.pc == Drain && s.actor.batch != [] && 0 <= v < |s.actor.counts| {
      PoppedCounted(s.actor, v);
    }
  }

  lemma ActorStop(p: Setup, s: State)
    requires StopLast(s) && Emptied(s.actor) && Shape(p, s)
    ensures StopLast(ActorEffect(s))
  {
    var a := s.actor;
    if a.pc == Drain && a.batch != [] {
      assert a.batch == a.batch[..|a.batch| - 1] + [a.batch[|a.batch| - 1]];
    }
  }

  lemma ActorShape(p: Setup, s: State)
    requires Shape(p, s) && Exclusion(s) && Emptied(s.actor) && ActorActive(s)
    ensures Shape(p, ActorEffect(s)) && Exclusion(ActorEffect(s)) && Emptied(ActorEffect(s).actor)
  {
  }

  lemma ActorRest(p: Setup, s: State)
    requires Shape(p, s) && ActorActive(s) && Fits(p, s) && NoLostWakeup(s)
    ensures Fits(p, ActorEffect(s)) && NoLostWakeup(ActorEffect(s))
  {
    SumNonNegative(Sent, s.senders);
  }

  lemma ActorBounds(p: Setup, s: State)
    requires InBounds(p, s)
    ensures InBounds(p, ActorEffect(s))
  {
  }

  lemma ActorKeeps(p: Setup, s: State)
    requires Inv(p, s) && ActorActive(s)
    ensures Inv(p, ActorEffect(s))
  {
    ActorShape(p, s);
    ActorRest(p, s);
    ActorBounds(p, s);
    forall v ensures Counted(p, ActorEffect(s), v) {
      assert Counted(p, s, v);
      ActorCounted(p, s, v);
    }
    ActorStop(p, s);
  }

  lemma NextKeeps(p: Setup, s: State, s': State)
    requires Inv(p, s) && NextState(p, s, s')
    ensures Inv(p, s')
  {
    if t: nat :| SenderActive(s, t) && s' == SenderEffect(p, s, t) {
      SenderKeeps(p, s, t);
    } else if MainActive(s) && s' == MainEffect(p, s) {
      MainKeeps(p, s);
    } else if ActorActive(s) && s' == ActorEffect(s) {
      ActorKeeps(p, s);
    } else {
      forall v ensures Counted(p, s', v) {
        assert Counted(p, s, v);
      }
    }
  }

  // ---- Termination ---------------------------------------------------------------------------------

  /** What a sending thread has left to do; a message pays for the work of the actor, a signal for its waking. */
  function SendWork(quota: nat, c: Sender): int {
    20 * (quota - c.i) + match c.pc case Next => 19 case Lock => 18 case Enqueue => 17 case Signal => 6 case Unlock => 3
                                    case Exited => 18
  }

  function SenderWork(p: Setup): Sender -> int { (c: Sender) => SendWork(p.kinds, c) }

  function ActorWork(a: Actor): int {
    |a.batch| + match a.pc case ActorLock => 3 case Test => 2 case Sleep => 1 case Relock => 3 case TakeAll => 1
                           case ActorUnlock => 6 case Drain => 5 case Judge => 4 case Stopped => 0
  }

  ghost function WorkLeft(p: Setup, s: State): int {
    Sum(SenderWork(p), s.senders) + SendWork(1, s.main) + 10 * |s.queue| + ActorWork(s.actor) - 3 * s.spurious
  }

  lemma SenderWorks(p: Setup, s: State, t: nat)
    requires SenderActive(s, t) && Paced(p.kinds, s.senders[t])
    ensures WorkLeft(p, SenderEffect(p, s, t)) < WorkLeft(p, s)
  {
    SumUpdate(SenderWork(p), s.senders, t, SendAdvance(p.kinds, s.senders[t]));
  }

  lemma MainWorks(p: Setup, s: State)
    requires MainActive(s) && Paced(1, s.main)
    ensures WorkLeft(p, MainEffect(p, s)) < WorkLeft(p, s)
  {
  }

  lemma ActorWorks(p: Setup, s: State)
    requires ActorActive(s) && Emptied(s.actor) && (s.actor.pc == TakeAll ==> s.queue != [])
    ensures WorkLeft(p, ActorEffect(s)) < WorkLeft(p, s)
  {
  }

  lemma WorkDrops(p: Setup, s: State, s': State)
    requires Inv(p, s) && NextState(p, s, s')
    ensures WorkLeft(p, s') < WorkLeft(p, s)
  {
    if t: nat :| SenderActive(s, t) && s' == SenderEffect(p, s, t) {
      SenderWorks(p, s, t);
    } else if MainActive(s) && s' == MainEffect(p, s) {
      MainWorks(p, s);
    } else if ActorActive(s) && s' == ActorEffect(s) {
      ActorWorks(p, s);
    }
  }

  lemma WorkAtStart(p: Setup, s: State)
    requires Init(p, s)
    ensures WorkLeft(p, s) == (20 * p.kinds + 19) * p.senders + 42
  {
    var w := 20 * p.kinds + 19;
    forall k | 0 <= k < |s.senders| ensures w <= SenderWork(p)(s.senders[k]) <= w {
    }
    SumBounds(SenderWork(p), s.senders, w, w);
  }

  lemma WorkRemains(p: Setup, s: State)
    requires Inv(p, s)
    ensures WorkLeft(p, s) >= - 3 * s.spurious
  {
    SumNonNegative(SenderWork(p), s.senders);
  }

  // ---- Where runs end ------------------------------------------------------------------------------

  /** Whenever the actor has stopped, its counts miss exactly the lost messages. */
  lemma StoppedCounts(p: Setup, s: State)
    requires Inv(p, s) && s.actor.pc == Stopped
    ensures forall v | 0 <= v < p.kinds :: s.actor.counts[v] + multiset(s.lost)[v] == p.senders
    ensures STOP !in s.lost && p.capacity > 0
  {
    assert s.main.i > 0 || s.main.pc != Next;
    forall v | 0 <= v < p.kinds ensures s.actor.counts[v] + multiset(s.lost)[v] == p.senders {
      assert Counted(p, s, v);
      SumBounds(HasSent(v), s.senders, 1, 1);
    }
  }

  lemma NoSenderHolds(s: State)
    requires Exclusion(s) && forall t: nat :: !SenderActive(s, t)
    ensures forall t: nat :: s.lock != BySender(t)
  {
    forall t: nat ensures s.lock != BySender(t) {
      assert t < |s.senders| ==> (SendHolds(s.senders[t].pc) <==> s.lock == BySender(t));
      assert !SenderActive(s, t);
    }
  }

  /** When nobody can move, everybody has finished, unless the stop message was lost: then the actor
      sleeps and main waits for it. */
  lemma QuietEnd(p: Setup, s: State)
    requires Inv(p, s) && Quiet(s)
    ensures forall t | 0 <= t < p.senders :: s.senders[t].pc == Exited
    ensures if STOP in s.lost then s.actor.pc == Sleep && s.main == Sender(Next, 1)
            else s.actor.pc == Stopped && s.main.pc == Exited
  {
    NoSenderHolds(s);
    forall t | 0 <= t < p.senders ensures s.senders[t].pc == Exited {
      assert !SenderActive(s, t);
    }
  }

  lemma {:induction false} RunKeeps(p: Setup, run: seq<State>, i: nat)
    requires Run(p, run) && i < |run|
    ensures Inv(p, run[i]) && WorkLeft(p, run[i]) <= WorkLeft(p, run[0]) - i
  {
    if i == 0 {
      InitInv(p, run[0]);
    } else {
      RunKeeps(p, run, i - 1);
      assert NextState(p, run[i - 1], run[i]);
      NextKeeps(p, run[i - 1], run[i]);
      WorkDrops(p, run[i - 1], run[i]);
    }
  }

  /** In every state of every run, however large the queue: messages are lost only for want of room,
      every message taken is the stop message or an index of the counts, the counts miss exactly the lost
      messages whenever the actor has stopped, the run is no longer than the messages and the spurious
      wake-ups allow, and when nobody can move all threads have finished, unless the stop message was
      lost. */
  lemma EveryState(p: Setup, run: seq<State>, i: nat)
    requires Run(p, run) && i < |run|
    ensures Inv(p, run[i]) && InBounds(p, run[i]) && forall x | x in run[i].lost :: Excusable(p, x)
    ensures run[i].actor.pc == Stopped ==>
              |run[i].actor.counts| == p.kinds && p.capacity > 0 && forall v | 0 <= v < p.kinds ::
                  run[i].actor.counts[v] + multiset(run[i].lost)[v] == p.senders
    ensures i <= (20 * p.kinds + 19) * p.senders + 42 + 3 * run[i].spurious
    ensures Quiet(run[i]) ==>
              && (forall t | 0 <= t < p.senders :: run[i].senders[t].pc == Exited)
              && if STOP in run[i].lost then run[i].actor.pc == Sleep
                 else run[i].actor.pc == Stopped && run[i].main.pc == Exited
  {
    RunKeeps(p, run, i);
    WorkRemains(p, run[i]);
    WorkAtStart(p, run[0]);
    if run[i].actor.pc == Stopped {
      StoppedCounts(p, run[i]);
    }
    if Quiet(run[i]) {
      QuietEnd(p, run[i]);
    }
  }
}
