/** How much room the queue of the actor needs: for the stop message to be heard, and for the counts to
    be right. */
module ActorRoom {
  import opened Actor
  import opened Runs
  import opened Sums

  // ---- Leading a run to its end ---------------------------------------------------------------------

  /** Some step other than a spurious wake-up. */
  lemma SomeStep(p: Setup, s: State) returns (s': State)
    requires Shape(p, s) && !Quiet(s)
    ensures Step(p, s, s')
  {
    if t: nat :| SenderActive(s, t) {
      s' := SenderEffect(p, s, t);
    } else if MainActive(s) {
      s' := MainEffect(p, s);
    } else {
      s' := ActorEffect(s);
    }
  }

  /** Lost messages stay lost, and nobody wakes up spuriously. */
  lemma StepLoses(p: Setup, s: State, s': State)
    requires Step(p, s, s')
    ensures s.lost <= s'.lost && s'.spurious == s.spurious
  {
  }

  lemma Extended(p: Setup, run: seq<State>, s': State)
    requires Run(p, run) && run[|run| - 1].spurious == 0 && Step(p, run[|run| - 1], s')
    ensures Run(p, run + [s']) && s'.spurious == 0 && run[|run| - 1].lost <= s'.lost
    ensures |run| <= (20 * p.kinds + 19) * p.senders + 43
  {
    EveryState(p, run, |run| - 1);
    StepLoses(p, run[|run| - 1], s');
    RunGrows((t: State) => Init(p, t), (t: State, t': State) => NextState(p, t, t'), run, s');
  }

  /** All senders have exited and the stop message will find the queue empty, or has found it so. */
  ghost predicate StopAccepted(p: Setup, s: State) {
    && p.capacity > 0 && (forall t | 0 <= t < |s.senders| :: s.senders[t].pc == Exited)
    && STOP !in s.lost && (Sent(s.main) == 0 ==> s.queue == [])
  }

  lemma StopAcceptedKept(p: Setup, s: State, s': State)
    requires StopAccepted(p, s) && Shape(p, s) && Step(p, s, s')
    ensures StopAccepted(p, s')
  {
  }

  /** Every run without spurious wake-ups can be led to its end. */
  lemma {:induction false} Completed(p: Setup, run: seq<State>) returns (whole: seq<State>)
    requires Run(p, run) && run[|run| - 1].spurious == 0
    ensures Run(p, whole) && Quiet(whole[|whole| - 1]) && run[|run| - 1].lost <= whole[|whole| - 1].lost
    ensures StopAccepted(p, run[|run| - 1]) ==> STOP !in whole[|whole| - 1].lost
    decreases (20 * p.kinds + 19) * p.senders + 43 - |run|
  {
    var s := run[|run| - 1];
    EveryState(p, run, |run| - 1);
    if Quiet(s) {
      whole := run;
    } else {
      var s' := SomeStep(p, s);
      Extended(p, run, s');
      if StopAccepted(p, s) {
        StopAcceptedKept(p, s, s');
      }
      whole := Completed(p, run + [s']);
    }
  }

  // ---- The actor starts late ------------------------------------------------------------------------

  /** The actor has not started yet: every message is queued, or lost because the queue is full; main
      waits if it is told to. */
  ghost predicate Piling(p: Setup, s: State) {
    && Shape(p, s) && Exclusion(s) && s.actor.pc == ActorLock
    && |s.queue| + |s.lost| == Sum(Sent, s.senders) + Sent(s.main)
    && |s.queue| <= p.capacity && (s.lost != [] ==> |s.queue| == p.capacity)
    && (Sent(s.main) > 0 && s.lost != [] ==> STOP in s.lost)
    && s.spurious == 0
  }

  lemma PilingSender(p: Setup, s: State, t: nat)
    requires Piling(p, s) && SenderActive(s, t) && Emptied(s.actor)
    ensures Piling(p, SenderEffect(p, s, t)) && SenderEffect(p, s, t).main == s.main
  {
    SenderShape(p, s, t);
    SumUpdate(Sent, s.senders, t, SendAdvance(p.kinds, s.senders[t]));
  }

  lemma PilingMain(p: Setup, s: State)
    requires Piling(p, s) && MainActive(s) && Emptied(s.actor)
    ensures Piling(p, MainEffect(p, s))
  {
    MainShape(p, s);
  }

  /** Everybody but the actor has sent all messages; or all senders have, and main has not started. */
  ghost predicate PiledUp(p: Setup, s: State, main: bool) {
    Piling(p, s) && (forall t: nat :: !SenderActive(s, t)) && if main then !MainActive(s) else s.main == Sender(Next, 0)
  }

  lemma {:induction false} LateActor(p: Setup, run: seq<State>, main: bool) returns (whole: seq<State>)
    requires Run(p, run) && Piling(p, run[|run| - 1]) && (!main ==> run[|run| - 1].main == Sender(Next, 0))
    ensures Run(p, whole) && PiledUp(p, whole[|whole| - 1], main)
    decreases (20 * p.kinds + 19) * p.senders + 43 - |run|
  {
    var s := run[|run| - 1];
    EveryState(p, run, |run| - 1);
    if t: nat :| SenderActive(s, t) {
      PilingSender(p, s, t);
      Extended(p, run, SenderEffect(p, s, t));
      whole := LateActor(p, run + [SenderEffect(p, s, t)], main);
    } else if main && MainActive(s) {
      PilingMain(p, s);
      Extended(p, run, MainEffect(p, s));
      whole := LateActor(p, run + [MainEffect(p, s)], main);
    } else {
      whole := run;
    }
  }

  lemma NothingSent(s: State)
    requires forall t | 0 <= t < |s.senders| :: s.senders[t] == Sender(Next, 0)
    ensures Sum(Sent, s.senders) == 0
  {
    SumBounds(Sent, s.senders, 0, 0);
  }

  lemma FirstState(p: Setup) returns (run: seq<State>)
    ensures Run(p, run) && Piling(p, run[|run| - 1]) && run[|run| - 1].main == Sender(Next, 0)
  {
    var s := State(Nobody, [], seq(p.senders, _ => Sender(Next, 0)), Sender(Next, 0),
                   Actor(ActorLock, [], false, seq(p.kinds, _ => 0)), [], 0);
    NothingSent(s);
    run := [s];
  }

  /** What has been sent when all senders have exited. */
  lemma AllSent(p: Setup, s: State, main: bool)
    requires PiledUp(p, s, main)
    ensures forall t | 0 <= t < p.senders :: s.senders[t].pc == Exited
    ensures |s.queue| + |s.lost| == p.senders * p.kinds + if main then 1 else 0
  {
    NoSenderHolds(s);
    forall t | 0 <= t < p.senders ensures s.senders[t].pc == Exited {
      assert !SenderActive(s, t);
    }
    SumBounds(Sent, s.senders, p.kinds, p.kinds);
  }

  // ---- The actor alone --------------------------------------------------------------------------------

  /** Only the actor has something to do, and the stop message is not there. */
  ghost predicate Idling(p: Setup, s: State) {
    && (forall t | 0 <= t < |s.senders| :: s.senders[t].pc == Exited) && s.main == Sender(Next, 0) && s.spurious == 0
  }

  /** The actor empties the queue and falls asleep. */
  lemma {:induction false} ActorSleeps(p: Setup, run: seq<State>) returns (whole: seq<State>)
    requires Run(p, run) && Idling(p, run[|run| - 1])
    ensures Run(p, whole) && Idling(p, whole[|whole| - 1]) && whole[|whole| - 1].queue == []
    ensures whole[|whole| - 1].lost == run[|run| - 1].lost
    decreases (20 * p.kinds + 19) * p.senders + 43 - |run|
  {
    var s := run[|run| - 1];
    EveryState(p, run, |run| - 1);
    if ActorActive(s) {
      Extended(p, run, ActorEffect(s));
      whole := ActorSleeps(p, run + [ActorEffect(s)]);
    } else {
      IdleEnd(p, s);
      whole := run;
    }
  }

  lemma IdleEnd(p: Setup, s: State)
    requires Inv(p, s) && Idling(p, s) && !ActorActive(s)
    ensures s.queue == []
  {
    NoSenderHolds(s);
  }

  // ---- The conditions -----------------------------------------------------------------------------------

  /** Room for all messages. */
  predicate Roomy(p: Setup) { p.senders * p.kinds + 1 <= p.capacity }

  lemma LossShowsSize(p: Setup, s: State)
    requires Fits(p, s) && s.lost != []
    ensures !Roomy(p)
  {
    assert Excusable(p, s.lost[0]);
  }

  /** No run loses a message exactly if the queue has room for all of them. */
  lemma RoomIsNeeded(p: Setup)
    ensures Roomy(p) <==> forall run: seq<State>, i: nat | Run(p, run) && i < |run| :: run[i].lost == []
  {
    if Roomy(p) {
      forall run: seq<State>, i: nat | Run(p, run) && i < |run| ensures run[i].lost == [] {
        EveryState(p, run, i);
        if run[i].lost != [] {
          LossShowsSize(p, run[i]);
        }
      }
    } else {
      var run := FirstState(p);
      run := LateActor(p, run, true);
      AllSent(p, run[|run| - 1], true);
      assert run[|run| - 1].lost != [];
    }
  }

  /** The actor stops at the end of every run exactly if the queue has room for all messages. */
  lemma StopIsHeard(p: Setup)
    ensures Roomy(p) <==>
              forall run: seq<State> | Run(p, run) && Quiet(run[|run| - 1]) :: run[|run| - 1].actor.pc == Stopped
  {
    if Roomy(p) {
      forall run: seq<State> | Run(p, run) && Quiet(run[|run| - 1]) ensures run[|run| - 1].actor.pc == Stopped {
        EveryState(p, run, |run| - 1);
        assert STOP in run[|run| - 1].lost ==> Excusable(p, STOP);
      }
    } else {
      var run := UnheardStop(p);
      assert Quiet(run[|run| - 1]) && run[|run| - 1].actor.pc != Stopped;
    }
  }

  /** Otherwise the stop message, sent last to a full queue, can be lost: the actor sleeps for ever. */
  lemma UnheardStop(p: Setup) returns (run: seq<State>)
    requires !Roomy(p)
    ensures Run(p, run) && Quiet(run[|run| - 1]) && run[|run| - 1].actor.pc == Sleep
  {
    run := FirstState(p);
    run := LateActor(p, run, true);
    var s := run[|run| - 1];
    AllSent(p, s, true);
    EveryState(p, run, |run| - 1);
    assert s.main.i == 1;
    run := Completed(p, run);
    EveryState(p, run, |run| - 1);
  }

  predicate CountedAll(p: Setup, s: State) {
    |s.actor.counts| == p.kinds && forall v | 0 <= v < p.kinds :: s.actor.counts[v] == p.senders
  }

  /** No run stops the actor with a wrong count exactly if the queue has room for all numbers, or no room at
      all, in which case the actor never stops. */
  lemma CountsAreRight(p: Setup)
    ensures p.senders * p.kinds <= p.capacity || p.capacity == 0 <==>
              forall run: seq<State>, i: nat | Run(p, run) && i < |run| && run[i].actor.pc == Stopped ::
                  CountedAll(p, run[i])
  {
    if p.senders * p.kinds <= p.capacity || p.capacity == 0 {
      forall run: seq<State>, i: nat | Run(p, run) && i < |run| && run[i].actor.pc == Stopped
        ensures CountedAll(p, run[i])
      {
        EveryState(p, run, i);
        StoppedRight(p, run[i]);
      }
    } else {
      var run, v := WrongCount(p);
      assert !CountedAll(p, run[|run| - 1]);
    }
  }

  lemma StoppedRight(p: Setup, s: State)
    requires Inv(p, s) && s.actor.pc == Stopped && (p.senders * p.kinds <= p.capacity || p.capacity == 0)
    ensures CountedAll(p, s)
  {
    StoppedCounts(p, s);
    forall v | 0 <= v < p.kinds ensures v !in s.lost {
      assert !Excusable(p, v);
    }
  }

  /** Otherwise the actor can stop with a number missing. */
  lemma WrongCount(p: Setup) returns (run: seq<State>, v: int)
    requires p.senders * p.kinds > p.capacity > 0
    ensures Run(p, run) && run[|run| - 1].actor.pc == Stopped
    ensures 0 <= v < |run[|run| - 1].actor.counts| == p.kinds && run[|run| - 1].actor.counts[v] < p.senders
  {
    run := FirstState(p);
    run := LateActor(p, run, false);
    var s := run[|run| - 1];
    AllSent(p, s, false);
    EveryState(p, run, |run| - 1);
    v := s.lost[0];
    run := ActorSleeps(p, run);
    run := Completed(p, run);
    s := run[|run| - 1];
    EveryState(p, run, |run| - 1);
    assert s.lost[0] == v;
    assert multiset(s.lost)[v] > 0;
  }
}
