/** The cyclic buffer between producer and consumer. */
module CyclicBuffers {
  import opened Arithmetic

  /** The fields of buffer_t without the mutex and the condition variables. */
  datatype Ring = Ring(buf: seq<char>, occupied: int, nextin: int, nextout: int)

  ghost predicate Sound(r: Ring) {
    && 0 < |r.buf| && 0 <= r.occupied <= |r.buf| && 0 <= r.nextin < |r.buf| && 0 <= r.nextout < |r.buf|
    && r.nextin == (r.nextout + r.occupied) % |r.buf|
  }

  /** The queue that the ring stands for. */
  ghost function Contents(r: Ring): (q: seq<char>)
    requires Sound(r)
    ensures |q| == r.occupied
  {
    seq(r.occupied, k requires 0 <= k => r.buf[(r.nextout + k) % |r.buf|])
  }

  function Put(r: Ring, item: char): Ring
    requires 0 <= r.nextin < |r.buf|
  {
    Ring(r.buf[r.nextin := item], r.occupied + 1, (r.nextin + 1) % |r.buf|, r.nextout)
  }

  function Take(r: Ring): Ring
    requires 0 <= r.nextout < |r.buf|
  {
    Ring(r.buf, r.occupied - 1, r.nextin, (r.nextout + 1) % |r.buf|)
  }

  lemma PutAppends(r: Ring, item: char)
    requires Sound(r) && r.occupied < |r.buf|
    ensures Sound(Put(r, item)) && Contents(Put(r, item)) == Contents(r) + [item]
  {
    var n := |r.buf|;
    WrapsOnce(r.nextout, r.occupied, n);
    WrapsOnce(r.nextout, r.occupied + 1, n);
    WrapsOnce(r.nextin, 1, n);
    forall k | 0 <= k < r.occupied ensures Contents(Put(r, item))[k] == Contents(r)[k] {
      WrapsOnce(r.nextout, k, n);
    }
  }

  lemma TakeDrops(r: Ring)
    requires Sound(r) && r.occupied > 0
    ensures Sound(Take(r)) && [r.buf[r.nextout]] + Contents(Take(r)) == Contents(r)
  {
    var n := |r.buf|;
    var r', q := Take(r), Contents(r);
    WrapsOnce(r.nextout, r.occupied, n);
    WrapsOnce(r.nextout, 1, n);
    WrapsOnce(r'.nextout, r.occupied - 1, n);
    WrapsOnce(r.nextout, 0, n);
    forall k | 0 <= k < r.occupied - 1 ensures Contents(r')[k] == q[k + 1] {
      WrapsOnce(r'.nextout, k, n);
      WrapsOnce(r.nextout, k + 1, n);
    }
  }

  class Buffer {
    const buf: array<char>
    var occupied: int
    var nextin: int
    var nextout: int

    ghost function Fields(): Ring
      reads this, buf
    {
      Ring(buf[..], occupied, nextin, nextout)
    }

    ghost predicate Valid()
      reads this, buf
    {
      Sound(Fields())
    }

    constructor (size: nat)
      requires size > 0
      ensures Valid() && fresh(buf) && buf.Length == size && Contents(Fields()) == []
    {
      buf := new char[size];
      occupied, nextin, nextout := 0, 0, 0;
      new;
      WrapsOnce(0, 0, size);
    }

    /** What the producer does when it has seen a free slot. */
    method Insert(item: char)
      requires Valid() && occupied < buf.Length
      modifies this, buf
      ensures Fields() == Put(old(Fields()), item)
      ensures Valid() && Contents(Fields()) == old(Contents(Fields())) + [item]
    {
      PutAppends(Fields(), item);
      buf[nextin] := item;
      nextin := nextin + 1;
      nextin := nextin % buf.Length;
      occupied := occupied + 1;
    }

    /** What the consumer does when it has seen an item. */
    method Remove() returns (item: char)
      requires Valid() && occupied > 0
      modifies this
      ensures Fields() == Take(old(Fields())) && item == old(buf[nextout])
      ensures Valid() && [item] + Contents(Fields()) == old(Contents(Fields()))
    {
      TakeDrops(Fields());
      item := buf[nextout];
      nextout := nextout + 1;
      nextout := nextout % buf.Length;
      occupied := occupied - 1;
    }
  }
}

/** One producer and one consumer around the cyclic buffer. */
module BoundedBuffer {
  import opened CyclicBuffers
  import opened Runs

  datatype Pc =
    | Next     // i < NUMITEMS ? and, for the producer, item[i] != '\0' ?
    | Lock
    | Test     // is the buffer full, is it empty?
    | Sleep    // in pthread_cond_wait
    | Relock   // woken, needs the mutex again
    | Access   // put the item into the buffer or take one out
    | Signal   // pthread_cond_signal, with the mutex held
    | Unlock
    | Exited

  datatype Side = Side(pc: Pc, i: nat)

  datatype Owner = Nobody | Producer | Consumer

  /** output is what the consumer has consumed; spurious counts wake-ups without a signal. No step reads them. */
  datatype State = State(lock: Owner, ring: Ring, producer: Side, consumer: Side, output: seq<char>, spurious: nat)

  const NUL: char := '\0'

  ghost predicate Init(size: nat, s: State) {
    && size > 0 && |s.ring.buf| == size && s.ring.occupied == s.ring.nextin == s.ring.nextout == 0
    && s.lock == Nobody && s.producer == s.consumer == Side(Next, 0) && s.output == [] && s.spurious == 0
  }

  /** Where a thread goes next: go tells whether it has another item, wait whether it must wait. */
  function Advance(c: Side, go: bool, wait: bool): Side {
    match c.pc
    case Next => c.(pc := if go then Lock else Exited)
    case Lock => c.(pc := Test)
    case Test => c.(pc := if wait then Sleep else Access)
    case Relock => c.(pc := Test)
    case Access => c.(pc := Signal)
    case Signal => c.(pc := Unlock)
    case Unlock => Side(Next, c.i + 1)
    case Sleep | Exited => c
  }

  function LockAfter(pc: Pc, wait: bool, lock: Owner, me: Owner): Owner {
    match pc
    case Lock | Relock => me
    case Test => if wait then Nobody else lock
    case Unlock => Nobody
    case _ => lock
  }

  function Woken(c: Side): Side { if c.pc == Sleep then c.(pc := Relock) else c }

  /** Whether a thread has a step of its own; a sleeper only has a spurious wake-up. */
  predicate Active(pc: Pc, lock: Owner) {
    match pc
    case Lock | Relock => lock == Nobody
    case Sleep | Exited => false
    case _ => true
  }

  predicate Produces(items: seq<char>, i: nat) { i < |items| && items[i] != NUL }

  ghost predicate ProducerStep(items: seq<char>, s: State, s': State) {
    && Active(s.producer.pc, s.lock) && 0 <= s.ring.nextin < |s.ring.buf|
    && var c, full := s.producer, s.ring.occupied >= |s.ring.buf|;
       && (c.pc == Access ==> c.i < |items|)
       && s' == s.(producer := Advance(c, Produces(items, c.i), full), lock := LockAfter(c.pc, full, s.lock, Producer),
                   ring := if c.pc == Access then Put(s.ring, items[c.i]) else s.ring,
                   consumer := if c.pc == Signal then Woken(s.consumer) else s.consumer)
  }

  ghost predicate ConsumerStep(items: seq<char>, s: State, s': State) {
    && Active(s.consumer.pc, s.lock) && 0 <= s.ring.nextout < |s.ring.buf|
    && var c, empty := s.consumer, s.ring.occupied <= 0;
       s' == s.(consumer := Advance(c, c.i < |items|, empty), lock := LockAfter(c.pc, empty, s.lock, Consumer),
                ring := if c.pc == Access then Take(s.ring) else s.ring,
                output := if c.pc == Access then s.output + [s.ring.buf[s.ring.nextout]] else s.output,
                producer := if c.pc == Signal then Woken(s.producer) else s.producer)
  }

  ghost predicate SpuriousWakeup(s: State, s': State) {
    || (s.producer.pc == Sleep && s' == s.(producer := Woken(s.producer), spurious := s.spurious + 1))
    || (s.consumer.pc == Sleep && s' == s.(consumer := Woken(s.consumer), spurious := s.spurious + 1))
  }

  ghost predicate Step(items: seq<char>, s: State, s': State) {
    ProducerStep(items, s, s') || ConsumerStep(items, s, s')
  }

  ghost predicate NextState(items: seq<char>, s: State, s': State) { Step(items, s, s') || SpuriousWakeup(s, s') }

  /** A sleeper may wake up at any time, and has to lock the mutex again then. */
  lemma MayWake(items: seq<char>, s: State)
    ensures s.producer.pc == Sleep ==>
              NextState(items, s, s.(producer := s.producer.(pc := Relock), spurious := s.spurious + 1))
    ensures s.consumer.pc == Sleep ==>
              NextState(items, s, s.(consumer := s.consumer.(pc := Relock), spurious := s.spurious + 1))
  {
  }

  ghost predicate Run(items: seq<char>, size: nat, run: seq<State>) {
    IsRun((s: State) => Init(size, s), (s: State, s': State) => NextState(items, s, s'), run)
  }

  lemma Starts(items: seq<char>, buf: seq<char>)
    requires buf != []
    ensures Run(items, |buf|, [State(Nobody, Ring(buf, 0, 0, 0), Side(Next, 0), Side(Next, 0), [], 0)])
  {
  }

  // ---- Invariants --------------------------------------------------------------------------------

  predicate Holds(pc: Pc) { pc == Test || pc == Access || pc == Signal || pc == Unlock }

  ghost predicate Exclusion(s: State) {
    && (Holds(s.producer.pc) <==> s.lock == Producer)
    && (Holds(s.consumer.pc) <==> s.lock == Consumer)
  }

  /** How many items a thread has put or taken. */
  function Handled(c: Side): nat { if c.pc == Signal || c.pc == Unlock then c.i + 1 else c.i }

  /** Up to where the items are text. */
  ghost predicate Clean(items: seq<char>, n: nat) { n <= |items| && NUL !in items[..n] }

  /** What has been consumed and what is queued make up what has been produced. */
  ghost predicate Fifo(items: seq<char>, s: State) {
    && Sound(s.ring) && Clean(items, Handled(s.producer))
    && s.output + Contents(s.ring) == items[..Handled(s.producer)]
    && |s.output| == Handled(s.consumer) <= |items|
  }

  predicate Busy(pc: Pc) { pc != Next && pc != Exited }

  ghost predicate Sane(items: seq<char>, s: State) {
    && (Busy(s.producer.pc) ==> Produces(items, s.producer.i))
    && (Busy(s.consumer.pc) ==> s.consumer.i < |items|)
    && (s.producer.pc == Exited ==> !Produces(items, s.producer.i))
    && (s.consumer.pc == Exited ==> s.consumer.i >= |items|)
    && (s.producer.pc == Access ==> s.ring.occupied < |s.ring.buf|)
    && (s.consumer.pc == Access ==> s.ring.occupied > 0)
  }

  /** Who sleeps has nothing to do, or the other one is about to signal. */
  ghost predicate NoLostWakeup(s: State) {
    && (s.consumer.pc == Sleep ==> s.ring.occupied == 0 || s.producer.pc == Signal)
    && (s.producer.pc == Sleep ==> s.ring.occupied == |s.ring.buf| || s.consumer.pc == Signal)
  }

  ghost predicate Inv(items: seq<char>, s: State) {
    Exclusion(s) && Fifo(items, s) && Sane(items, s) && NoLostWakeup(s)
  }

  lemma ProducerKeeps(items: seq<char>, s: State, s': State)
    requires Inv(items, s) && ProducerStep(items, s, s')
    ensures Inv(items, s')
  {
    var c := s.producer;
    if c.pc == Access {
      PutAppends(s.ring, items[c.i]);
      assert items[..c.i + 1] == items[..c.i] + [items[c.i]];
    }
  }

  lemma ConsumerKeeps(items: seq<char>, s: State, s': State)
    requires Inv(items, s) && ConsumerStep(items, s, s')
    ensures Inv(items, s')
  {
    if s.consumer.pc == Access {
      TakeDrops(s.ring);
    }
  }

  lemma NextKeeps(items: seq<char>, s: State, s': State)
    requires Inv(items, s) && NextState(items, s, s')
    ensures Inv(items, s')
  {
    if ProducerStep(items, s, s') {
      ProducerKeeps(items, s, s');
    } else if ConsumerStep(items, s, s') {
      ConsumerKeeps(items, s, s');
    }
  }

  // ---- Termination ---------------------------------------------------------------------------------

  /** What a thread has left to do. A signal pays for the thread that it wakes. */
  function Work(n: nat, c: Side): int {
    8 * (n - c.i) + match c.pc case Next => 8 case Lock => 7 case Test => 6 case Sleep => 5 case Relock => 7
                               case Access => 5 case Signal => 4 case Unlock => 1 case Exited => 7
  }

  function WorkLeft(n: nat, s: State): int { Work(n, s.producer) + Work(n, s.consumer) - 3 * s.spurious }

  lemma WorkDrops(items: seq<char>, s: State, s': State)
    requires Inv(items, s) && NextState(items, s, s')
    ensures WorkLeft(|items|, s') < WorkLeft(|items|, s)
  {
  }

  // ---- Where runs end ------------------------------------------------------------------------------

  /** Nobody has a step but for spurious wake-ups. */
  ghost predicate Quiet(s: State) { !Active(s.producer.pc, s.lock) && !Active(s.consumer.pc, s.lock) }

  ghost predicate Finished(s: State) { s.producer.pc == Exited && s.consumer.pc == Exited }

  /** The text is what comes before the first NUL. */
  function Text(items: seq<char>): (t: seq<char>)
    ensures t <= items && NUL !in t && (t == items || items[|t|] == NUL)
  {
    if items == [] || items[0] == NUL then [] else [items[0]] + Text(items[1..])
  }

  lemma QuietEnd(items: seq<char>, s: State)
    requires Inv(items, s) && Quiet(s)
    ensures s.producer.pc == Exited && s.output == Text(items)
    ensures if NUL in items then s.consumer.pc == Sleep && s.ring.occupied == 0 else s.consumer.pc == Exited
  {
    var t, n := Text(items), s.producer.i;
    assert s.producer.pc == Exited;
    assert |t| == n;
  }

  lemma {:induction false} CleanIsText(items: seq<char>, n: nat)
    requires Clean(items, n)
    ensures items[..n] <= Text(items)
  {
    if n > 0 {
      assert items[..n][0] == items[0] && items[..n][1..] == items[1..][..n - 1];
      CleanIsText(items[1..], n - 1);
      assert items[..n] == [items[0]] + items[1..][..n - 1];
    }
  }

  lemma {:induction false} RunKeeps(items: seq<char>, size: nat, run: seq<State>, i: nat)
    requires Run(items, size, run) && i < |run|
    ensures Inv(items, run[i]) && WorkLeft(|items|, run[i]) <= 16 * |items| + 16 - i
  {
    if i == 0 {
      var s := run[0];
      assert items[..0] == s.output + Contents(s.ring);
    } else {
      RunKeeps(items, size, run, i - 1);
      assert NextState(items, run[i - 1], run[i]);
      NextKeeps(items, run[i - 1], run[i]);
      WorkDrops(items, run[i - 1], run[i]);
    }
  }

  lemma WorkRemains(items: seq<char>, s: State)
    requires Inv(items, s)
    ensures WorkLeft(|items|, s) >= - 3 * s.spurious
  {
  }

  /** In every state of every run: what is consumed is a prefix of the text, the run is no longer than the
      items and the spurious wake-ups allow, and when nobody can move the whole text is consumed. Then both
      threads have exited exactly if the items contain no NUL; otherwise the consumer waits for ever. */
  lemma EveryState(items: seq<char>, size: nat, run: seq<State>, i: nat)
    requires Run(items, size, run) && i < |run|
    ensures Inv(items, run[i])
    ensures run[i].output <= Text(items)
    ensures i <= 16 * |items| + 16 + 3 * run[i].spurious
    ensures Quiet(run[i]) ==> run[i].output == Text(items) && (Finished(run[i]) <==> NUL !in items)
  {
    var s := run[i];
    RunKeeps(items, size, run, i);
    WorkRemains(items, s);
    CleanIsText(items, Handled(s.producer));
    if Quiet(s) {
      QuietEnd(items, s);
    }
  }

  /** If the items contain a NUL, the producer puts no item from there on and exits there, and the consumer
      never exits. */
  lemma NulKeepsConsumer(items: seq<char>, size: nat, run: seq<State>, i: nat)
    requires Run(items, size, run) && i < |run| && NUL in items
    ensures |Text(items)| < |items| && items[|Text(items)|] == NUL
    ensures Handled(run[i].producer) <= |Text(items)|
        && (run[i].producer.pc == Exited ==> run[i].producer.i == |Text(items)|)
    ensures run[i].consumer.pc != Exited
  {
    var s := run[i];
    EveryState(items, size, run, i);
    CleanIsText(items, Handled(s.producer));
    assert |items[..Handled(s.producer)]| <= |Text(items)|;
  }

  lemma SomeStep(items: seq<char>, s: State) returns (s': State)
    requires Inv(items, s) && !Quiet(s)
    ensures Step(items, s, s') && s'.spurious == s.spurious
  {
    if Active(s.producer.pc, s.lock) {
      var c, full := s.producer, s.ring.occupied >= |s.ring.buf|;
      s' := s.(producer := Advance(c, Produces(items, c.i), full), lock := LockAfter(c.pc, full, s.lock, Producer),
               ring := if c.pc == Access then Put(s.ring, items[c.i]) else s.ring,
               consumer := if c.pc == Signal then Woken(s.consumer) else s.consumer);
      assert ProducerStep(items, s, s');
    } else {
      var c, empty := s.consumer, s.ring.occupied <= 0;
      s' := s.(consumer := Advance(c, c.i < |items|, empty), lock := LockAfter(c.pc, empty, s.lock, Consumer),
               ring := if c.pc == Access then Take(s.ring) else s.ring,
               output := if c.pc == Access then s.output + [s.ring.buf[s.ring.nextout]] else s.output,
               producer := if c.pc == Signal then Woken(s.producer) else s.producer);
      assert ConsumerStep(items, s, s');
    }
  }

  lemma Extended(items: seq<char>, size: nat, run: seq<State>) returns (s': State)
    requires Run(items, size, run) && run[|run| - 1].spurious == 0 && !Quiet(run[|run| - 1])
    ensures Run(items, size, run + [s']) && s'.spurious == 0
    ensures |run| <= 16 * |items| + 17
  {
    EveryState(items, size, run, |run| - 1);
    s' := SomeStep(items, run[|run| - 1]);
    RunGrows((t: State) => Init(size, t), (t: State, t': State) => NextState(items, t, t'), run, s');
  }

  /** Every run without spurious wake-ups can be led to its end. */
  lemma {:induction false} Completed(items: seq<char>, size: nat, run: seq<State>) returns (whole: seq<State>)
    requires Run(items, size, run) && run[|run| - 1].spurious == 0
    ensures Run(items, size, whole) && run <= whole && Quiet(whole[|whole| - 1])
    decreases 16 * |items| + 17 - |run|
  {
    if Quiet(run[|run| - 1]) {
      whole := run;
    } else {
      var s' := Extended(items, size, run);
      whole := Completed(items, size, run + [s']);
    }
  }
}
