/** The chameneos rendezvous: creatures meet in pairs through three semaphores, and the
    second arrival hands the mutex, together with its own permit, to the first one through
    sem_priv. One step per shared access or semaphore operation. */
module Chameneos {
  import opened Sums
  import opened Runs

  datatype Color = Zero | Blue | Red | Yellow | Invalid

  datatype Complement = Mixed(color: Color) | Exit(code: nat)

  function ComplimentColor(c1: Color, c2: Color): Complement {
    match c1
    case Blue => (match c2
                  case Blue => Mixed(Blue)
                  case Red => Mixed(Yellow)
                  case Yellow => Mixed(Red)
                  case _ => Exit(1))
    case Red => (match c2
                 case Blue => Mixed(Yellow)
                 case Red => Mixed(Red)
                 case Yellow => Mixed(Blue)
                 case _ => Exit(2))
    case Yellow => (match c2
                    case Blue => Mixed(Red)
                    case Red => Mixed(Blue)
                    case Yellow => Mixed(Yellow)
                    case _ => Exit(3))
    case _ => Exit(4)
  }

  predicate Proper(c: Color) { c.Blue? || c.Red? || c.Yellow? }

  function Number(c: Color): nat {
    match c case Zero => 0 case Blue => 1 case Red => 2 case Yellow => 3 case Invalid => 4
  }

  /** Where a creature is: the name says what it does next. */
  datatype Pc =
    | Loop            // read done in the loop test
    | AcqPermit       // sem_wait(&at_most_two)
    | Check1          // read done
    | AcqMutex        // sem_wait(&mutex)
    | Check2          // read done again
    | QuitMutex       // sem_post(&mutex) before giving up
    | QuitPermit      // sem_post(&at_most_two) before giving up
    | Test            // read first_arrived
    | SetFirst        // first_arrived = 1
    | PutAColor | PutAId
    | RelMutexFirst   // sem_post(&mutex)
    | AcqPriv         // sem_wait(&sem_priv)
    | GetBColor | GetBId
    | Dec             // meetings_left--
    | TestZero        // read meetings_left
    | SetDone         // done = 1
    | RelMutexLast    // sem_post(&mutex)
    | RelPermit1 | RelPermit2
    | ClrFirst        // first_arrived = 0
    | PutBColor | PutBId | GetAColor | GetAId
    | PostPriv        // sem_post(&sem_priv)
    | Update          // count the meeting and change colour
    | Print           // sem_wait(&sem_print)
    | Exited

  datatype Creature = Creature(pc: Pc, color: Color, otherColor: Color, otherId: nat,
                               metOthers: nat, metSelf: nat)

  /** What one creature saw in a meeting: itself and the other one. */
  datatype View = View(id: nat, color: Color, otherId: nat, otherColor: Color)

  /** The globals. firstViews and secondViews record what the first and the second arrival
      read; no step reads them. exitCode is 0 while the process has not called exit. */
  datatype Globals = Globals(permits: nat, mutex: nat, priv: nat, printSem: nat,
                             left: int, first: bool, done: bool,
                             aColor: Color, aId: nat, bColor: Color, bId: nat,
                             exitCode: nat,
                             firstViews: seq<View>, secondViews: seq<View>)

  /** The globals, the creatures and the progress of run_the_meetings. */
  datatype State = State(g: Globals, creatures: seq<Creature>, posted: nat, joined: nat, total: int)

  ghost predicate Init(colors: seq<Color>, meetings: int, s: State) {
    && s.g.permits == 2 && s.g.mutex == 1 && s.g.priv == 0 && s.g.printSem == 0
    && s.g.left == meetings && !s.g.first && !s.g.done
    && s.g.exitCode == 0 && s.g.firstViews == [] && s.g.secondViews == []
    && |s.creatures| == |colors|
    && (forall u | 0 <= u < |colors| ::
          && s.creatures[u].pc == Loop && s.creatures[u].color == colors[u]
          && s.creatures[u].metOthers == 0 && s.creatures[u].metSelf == 0)
    && s.posted == 0 && s.joined == 0 && s.total == 0
  }

  predicate CanAct(g: Globals, c: Creature) {
    match c.pc
    case AcqPermit => g.permits > 0
    case AcqMutex => g.mutex > 0
    case AcqPriv => g.priv > 0
    case Print => g.printSem > 0
    case Exited => false
    case _ => true
  }

  /** What the next step of creature t does to the creature. */
  function Move(t: nat, g: Globals, c: Creature): Creature {
    match c.pc
    case Loop => c.(pc := if g.done then Print else AcqPermit)
    case AcqPermit => c.(pc := Check1)
    case Check1 => c.(pc := if g.done then QuitPermit else AcqMutex)
    case AcqMutex => c.(pc := Check2)
    case Check2 => c.(pc := if g.done then QuitMutex else Test)
    case QuitMutex => c.(pc := QuitPermit)
    case QuitPermit => c.(pc := Print)
    case Test => c.(pc := if g.first then ClrFirst else SetFirst)
    case SetFirst => c.(pc := PutAColor)
    case PutAColor => c.(pc := PutAId)
    case PutAId => c.(pc := RelMutexFirst)
    case RelMutexFirst => c.(pc := AcqPriv)
    case AcqPriv => c.(pc := GetBColor)
    case GetBColor => c.(pc := GetBId, otherColor := g.bColor)
    case GetBId => c.(pc := Dec, otherId := g.bId)
    case Dec => c.(pc := TestZero)
    case TestZero => c.(pc := if g.left == 0 then SetDone else RelMutexLast)
    case SetDone => c.(pc := RelMutexLast)
    case RelMutexLast => c.(pc := RelPermit1)
    case RelPermit1 => c.(pc := RelPermit2)
    case RelPermit2 => c.(pc := Update)
    case ClrFirst => c.(pc := PutBColor)
    case PutBColor => c.(pc := PutBId)
    case PutBId => c.(pc := GetAColor)
    case GetAColor => c.(pc := GetAId, otherColor := g.aColor)
    case GetAId => c.(pc := PostPriv, otherId := g.aId)
    case PostPriv => c.(pc := Update)
    case Update =>
      (match ComplimentColor(c.color, c.otherColor)
       case Mixed(color) =>
         if t == c.otherId then c.(pc := Loop, color := color, metSelf := c.metSelf + 1)
         else c.(pc := Loop, color := color, metOthers := c.metOthers + 1)
       case Exit(_) => c)
    case Print => c.(pc := Exited)
    case Exited => c
  }

  /** What the next step of creature t does to the globals. */
  function Effect(t: nat, g: Globals, c: Creature): Globals
    requires CanAct(g, c)
  {
    match c.pc
    case AcqPermit => g.(permits := g.permits - 1)
    case AcqMutex => g.(mutex := g.mutex - 1)
    case QuitMutex => g.(mutex := g.mutex + 1)
    case QuitPermit => g.(permits := g.permits + 1)
    case SetFirst => g.(first := true)
    case PutAColor => g.(aColor := c.color)
    case PutAId => g.(aId := t)
    case RelMutexFirst => g.(mutex := g.mutex + 1)
    case AcqPriv => g.(priv := g.priv - 1)
    case GetBId => g.(firstViews := g.firstViews + [View(t, c.color, g.bId, c.otherColor)])
    case Dec => g.(left := g.left - 1)
    case SetDone => g.(done := true)
    case RelMutexLast => g.(mutex := g.mutex + 1)
    case RelPermit1 => g.(permits := g.permits + 1)
    case RelPermit2 => g.(permits := g.permits + 1)
    case ClrFirst => g.(first := false)
    case PutBColor => g.(bColor := c.color)
    case PutBId => g.(bId := t)
    case PostPriv => g.(priv := g.priv + 1,
                        secondViews := g.secondViews + [View(t, c.color, c.otherId, c.otherColor)])
    case Update =>
      (match ComplimentColor(c.color, c.otherColor)
       case Mixed(_) => g
       case Exit(code) => g.(exitCode := code))
    case Print => g.(printSem := g.printSem - 1)
    case _ => g
  }

  predicate Enabled(s: State, t: nat) {
    t < |s.creatures| && CanAct(s.g, s.creatures[t])
  }

  /** The next step of creature t. */
  function Step(s: State, t: nat): State
    requires Enabled(s, t)
  {
    s.(g := Effect(t, s.g, s.creatures[t]),
       creatures := s.creatures[t := Move(t, s.g, s.creatures[t])])
  }

  /** run_the_meetings: let every creature print, then join them in order and add up. */
  predicate MainEnabled(s: State) {
    || s.posted < |s.creatures|
    || (s.joined < |s.creatures| && s.creatures[s.joined].pc == Exited)
  }

  function MainStep(s: State): State
    requires MainEnabled(s)
  {
    if s.posted < |s.creatures| then
      s.(posted := s.posted + 1, g := s.g.(printSem := s.g.printSem + 1))
    else
      s.(joined := s.joined + 1, total := s.total + Met(s.creatures[s.joined]))
  }

  function Met(c: Creature): int { c.metOthers + c.metSelf }

  ghost predicate Next(s: State, s': State) {
    && s.g.exitCode == 0
    && (|| (MainEnabled(s) && s' == MainStep(s))
        || exists t: nat :: Enabled(s, t) && s' == Step(s, t))
  }

  /** A creature that meets an invalid colour ends the process, and the code says which it was. */
  lemma ExitEnds(s: State, t: nat)
    requires Enabled(s, t) && s.creatures[t].pc == Update
    requires ComplimentColor(s.creatures[t].color, s.creatures[t].otherColor).Exit?
    ensures Step(s, t).g.exitCode == ComplimentColor(s.creatures[t].color, s.creatures[t].otherColor).code > 0
    ensures forall s' :: !Next(Step(s, t), s')
  {
  }

  /** The total is printed: run_the_meetings has joined everybody. */
  predicate Finished(s: State) { s.joined == |s.creatures| == s.posted }

  ghost predicate Run(colors: seq<Color>, meetings: int, run: seq<State>) {
    IsRun((s: State) => Init(colors, meetings, s), Next, run)
  }

  lemma Starts(colors: seq<Color>, meetings: int, s: State)
    requires s.g == Globals(2, 1, 0, 0, meetings, false, false, s.g.aColor, s.g.aId, s.g.bColor, s.g.bId, 0, [], [])
    requires |s.creatures| == |colors| && s.posted == s.joined == s.total == 0
    requires forall u | 0 <= u < |colors| ::
               s.creatures[u] == Creature(Loop, colors[u], s.creatures[u].otherColor, s.creatures[u].otherId, 0, 0)
    ensures Run(colors, meetings, [s])
  {
  }

  // ---- What the semaphores count --------------------------------------------------

  /** How many units of at_most_two a creature carries; PostPriv gives its unit to the first arrival. */
  function Permits(c: Creature): int {
    match c.pc
    case GetBColor | GetBId | Dec | TestZero | SetDone | RelMutexLast | RelPermit1 => 2
    case Loop | AcqPermit | Update | Print | Exited => 0
    case _ => 1
  }

  /** Whether a creature carries the mutex. */
  function Baton(c: Creature): int {
    match c.pc
    case Check2 | QuitMutex | Test | SetFirst | PutAColor | PutAId | RelMutexFirst => 1
    case GetBColor | GetBId | Dec | TestZero | SetDone | RelMutexLast => 1
    case ClrFirst | PutBColor | PutBId | GetAColor | GetAId | PostPriv => 1
    case _ => 0
  }

  /** A first arrival that has announced itself and is not yet released. */
  function FirstSide(c: Creature): int {
    match c.pc case PutAColor | PutAId | RelMutexFirst | AcqPriv => 1 case _ => 0
  }

  /** A second arrival that has taken the announcement and not yet released the first. */
  function SecondSide(c: Creature): int {
    match c.pc case PutBColor | PutBId | GetAColor | GetAId | PostPriv => 1 case _ => 0
  }

  function Flag(b: bool): int { if b then 1 else 0 }

  predicate Turn(g: Globals, c: Creature) {
    (c.pc == SetFirst ==> !g.first) && (c.pc == ClrFirst ==> g.first)
  }

  /** The two permits and the mutex are never lost or doubled: each unit is in its semaphore,
      with one creature, or on its way through sem_priv. */
  ghost predicate Counts(s: State) {
    && s.g.permits + s.g.priv + Sum(Permits, s.creatures) == 2
    && s.g.mutex + s.g.priv + Sum(Baton, s.creatures) == 1
    && Sum(FirstSide, s.creatures) == Flag(s.g.first) + s.g.priv + Sum(SecondSide, s.creatures)
    && Sum(FirstSide, s.creatures) <= 1
    && forall u | 0 <= u < |s.creatures| :: Turn(s.g, s.creatures[u])
  }

  /** If one creature holds the mutex, no other does and sem_priv is empty. */
  lemma BatonAlone(s: State, t: nat, u: nat)
    requires Counts(s) && t < |s.creatures| && u < |s.creatures| && Baton(s.creatures[t]) == 1
    ensures s.g.mutex == 0 && s.g.priv == 0
    ensures u != t ==> Baton(s.creatures[u]) == 0
  {
    SumAtLeast(Baton, s.creatures, t);
    if u != t {
      SumAtLeastTwo(Baton, s.creatures, t, u);
    }
  }

  /** Each step moves units of the semaphores between their counters and its own creature. */
  lemma Balance(t: nat, g: Globals, c: Creature)
    requires CanAct(g, c)
    ensures var g', c' := Effect(t, g, c), Move(t, g, c);
            && g'.permits + g'.priv + Permits(c') == g.permits + g.priv + Permits(c)
            && (g'.first != g.first ==> Baton(c) == 1)
  {
  }

  lemma BatonBalance(t: nat, g: Globals, c: Creature)
    requires CanAct(g, c)
    ensures var g', c' := Effect(t, g, c), Move(t, g, c);
            g'.mutex + g'.priv + Baton(c') == g.mutex + g.priv + Baton(c)
  {
  }

  lemma AnnouncementBalance(t: nat, g: Globals, c: Creature)
    requires CanAct(g, c) && Turn(g, c)
    ensures var g', c' := Effect(t, g, c), Move(t, g, c);
            && FirstSide(c') - Flag(g'.first) - g'.priv - SecondSide(c')
               == FirstSide(c) - Flag(g.first) - g.priv - SecondSide(c)
            && (FirstSide(c') > FirstSide(c) ==> c.pc == SetFirst)
            && Turn(g', c')
  {
  }

  lemma CountsKept(s: State, t: nat)
    requires Counts(s) && Enabled(s, t)
    ensures Counts(Step(s, t))
  {
    var s', c, c' := Step(s, t), s.creatures[t], Move(t, s.g, s.creatures[t]);
    SumUpdate(Permits, s.creatures, t, c');
    SumUpdate(Baton, s.creatures, t, c');
    SumUpdate(FirstSide, s.creatures, t, c');
    SumUpdate(SecondSide, s.creatures, t, c');
    Balance(t, s.g, c);
    BatonBalance(t, s.g, c);
    AnnouncementBalance(t, s.g, c);
    if c.pc == SetFirst {
      NoneAnnounced(s, t);
    }
    forall u | 0 <= u < |s.creatures|
      ensures Turn(s'.g, s'.creatures[u])
    {
      if s'.g.first != s.g.first && u != t {
        BatonAlone(s, t, u);
      }
    }
  }

  /** When a creature is about to announce itself, nobody else is announced or half-way. */
  lemma NoneAnnounced(s: State, t: nat)
    requires Counts(s) && t < |s.creatures| && s.creatures[t].pc == SetFirst
    ensures Sum(FirstSide, s.creatures) == 0
  {
    assert Turn(s.g, s.creatures[t]);
    BatonAlone(s, t, t);
    SumNonNegative(SecondSide, s.creatures);
    if Sum(SecondSide, s.creatures) > 0 {
      var u := SumWitness(SecondSide, s.creatures);
      BatonAlone(s, t, u);
    }
  }

  /** A creature with both permits is alone: nobody else is inside and nothing is in sem_priv. */
  lemma BothPermits(s: State, t: nat, u: nat)
    requires Counts(s) && t < |s.creatures| && u < |s.creatures| && Permits(s.creatures[t]) == 2
    ensures s.g.permits == 0 && s.g.priv == 0
    ensures u != t ==> Permits(s.creatures[u]) == 0
  {
    SumAtLeast(Permits, s.creatures, t);
    if u != t {
      SumAtLeastTwo(Permits, s.creatures, t, u);
    }
  }

  // ---- How many meetings there are --------------------------------------------------

  /** Inside a meeting that still has to be counted, or on the way into one. */
  predicate Meeting(c: Creature) {
    match c.pc
    case AcqMutex | Check2 | Test | SetFirst | PutAColor | PutAId | RelMutexFirst | AcqPriv => true
    case GetBColor | GetBId | Dec => true
    case ClrFirst | PutBColor | PutBId | GetAColor | GetAId | PostPriv => true
    case _ => false
  }

  function Finishing(c: Creature): int { if c.pc == TestZero || c.pc == SetDone then 1 else 0 }

  /** The meetings a creature has counted, plus one it took part in and has yet to count, minus one
      that its partner has left and it has yet to end. */
  function Credit(c: Creature): int {
    match c.pc
    case Update | TestZero | SetDone | RelMutexLast | RelPermit1 | RelPermit2 => Met(c) + 1
    case GetBColor | GetBId | Dec => Met(c) - 1
    case _ => Met(c)
  }

  predicate Stage(g: Globals, c: Creature) {
    && (Meeting(c) ==> !g.done && g.left >= 1)
    && (c.pc == TestZero || c.pc == SetDone ==> !g.done)
    && (c.pc == SetDone ==> g.left == 0)
    && (c.pc == QuitPermit || c.pc == Print || c.pc == Exited ==> g.done)
    && c.pc != QuitMutex
  }

  ghost predicate Meetings(meetings: int, s: State) {
    && 0 <= s.g.left
    && (s.g.done ==> s.g.left == 0)
    && (s.g.left == 0 && !s.g.done ==> Sum(Finishing, s.creatures) > 0)
    && Sum(Credit, s.creatures) - s.g.priv == 2 * (meetings - s.g.left)
    && forall u | 0 <= u < |s.creatures| :: Stage(s.g, s.creatures[u])
  }

  lemma MeetingsBalance(t: nat, g: Globals, c: Creature)
    requires CanAct(g, c) && Stage(g, c) && Effect(t, g, c).exitCode == 0 && g.left >= 0
    requires c.pc == Check1 && !g.done ==> g.left >= 1
    ensures var g', c' := Effect(t, g, c), Move(t, g, c);
            && Credit(c') - g'.priv + 2 * g'.left == Credit(c) - g.priv + 2 * g.left
            && (g'.left == g.left || (g'.left == g.left - 1 && c.pc == Dec && c'.pc == TestZero && g'.done == g.done))
            && (g'.done == g.done || (g'.done && c.pc == SetDone && g'.left == g.left))
            && (Finishing(c') < Finishing(c) ==> g'.left != 0 || g'.done)
  {
  }

  lemma StageMoves(t: nat, g: Globals, c: Creature)
    requires CanAct(g, c) && Stage(g, c) && Effect(t, g, c).exitCode == 0 && g.left >= 0
    requires c.pc == Check1 && !g.done ==> g.left >= 1
    ensures Stage(Effect(t, g, c), Move(t, g, c))
  {
  }

  lemma MeetingsKept(meetings: int, s: State, t: nat)
    requires Counts(s) && Meetings(meetings, s) && Enabled(s, t)
    requires Step(s, t).g.exitCode == 0
    ensures Meetings(meetings, Step(s, t))
  {
    var s', c, c' := Step(s, t), s.creatures[t], Move(t, s.g, s.creatures[t]);
    assert Stage(s.g, c);
    SumUpdate(Credit, s.creatures, t, c');
    SumUpdate(Finishing, s.creatures, t, c');
    SumAtLeast(Finishing, s'.creatures, t);
    if c.pc == Check1 && !s.g.done && s.g.left == 0 {
      var v := SumWitness(Finishing, s.creatures);
      BothPermits(s, v, t);
    }
    MeetingsBalance(t, s.g, c);
    StageMoves(t, s.g, c);
    forall u | 0 <= u < |s.creatures|
      ensures Stage(s'.g, s'.creatures[u])
    {
      assert Stage(s.g, s.creatures[u]);
      if u != t && (s'.g.left != s.g.left || s'.g.done != s.g.done) {
        BothPermits(s, t, u);
      }
    }
  }

  // ---- What the partners exchange ------------------------------------------------------

  function AtRead(c: Creature): int { if c.pc == GetBColor || c.pc == GetBId then 1 else 0 }

  function AtDec(c: Creature): int { if c.pc == Dec then 1 else 0 }

  /** What creature t may rely on: A is its own while it is announced, B and its copy of A are
      its own while it answers, and it never reads its own identity back. */
  predicate Exchange(g: Globals, t: nat, c: Creature) {
    && Proper(c.color) && c.metSelf == 0
    && (match c.pc
        case PutAId => g.aColor == c.color
        case RelMutexFirst | AcqPriv | GetBColor => g.aColor == c.color && g.aId == t
        case GetBId => g.aColor == c.color && g.aId == t && c.otherColor == g.bColor && Proper(c.otherColor)
        case PutBId => g.bColor == c.color
        case GetAColor => g.bColor == c.color && g.bId == t
        case GetAId => g.bColor == c.color && g.bId == t && c.otherColor == g.aColor && Proper(c.otherColor)
        case PostPriv =>
          && g.bColor == c.color && g.bId == t
          && c.otherColor == g.aColor && c.otherId == g.aId && c.otherId != t && Proper(c.otherColor)
        case Dec | TestZero | SetDone | RelMutexLast | RelPermit1 | RelPermit2 | Update =>
          c.otherId != t && Proper(c.otherColor)
        case _ => true)
  }

  /** The two creatures of a meeting saw exactly each other. */
  predicate Mirror(v: View, w: View) {
    v.id == w.otherId && v.color == w.otherColor && w.id == v.otherId && w.color == v.otherColor && v.id != w.id
  }

  /** How many meetings the second arrival has ended and the first has yet to read. */
  ghost function Pending(s: State): int { s.g.priv + Sum(AtRead, s.creatures) }

  ghost predicate Views(s: State) {
    && |s.g.secondViews| == |s.g.firstViews| + Pending(s)
    && (forall k | 0 <= k < |s.g.firstViews| && k < |s.g.secondViews| ::
          Mirror(s.g.firstViews[k], s.g.secondViews[k]))
    && (Pending(s) > 0 && |s.g.secondViews| > 0 ==>
          && s.g.secondViews[|s.g.secondViews| - 1] == View(s.g.bId, s.g.bColor, s.g.aId, s.g.aColor)
          && s.g.aId != s.g.bId && Proper(s.g.aColor) && Proper(s.g.bColor))
  }

  ghost predicate Exchanges(meetings: int, s: State) {
    && Views(s)
    && |s.g.firstViews| == meetings - s.g.left + Sum(AtDec, s.creatures)
    && forall u | 0 <= u < |s.creatures| :: Exchange(s.g, u, s.creatures[u])
  }

  /** The second arrival's partner is waiting at sem_priv. */
  lemma Partner(s: State, u: nat) returns (t: nat)
    requires Counts(s) && u < |s.creatures| && SecondSide(s.creatures[u]) == 1
    ensures t < |s.creatures| && t != u && s.creatures[t].pc == AcqPriv
  {
    SumAtLeast(SecondSide, s.creatures, u);
    t := SumWitness(FirstSide, s.creatures);
    BatonAlone(s, u, t);
  }

  /** Only one creature is on the first side. */
  lemma FirstAlone(s: State, t: nat, u: nat)
    requires Counts(s) && t < |s.creatures| && u < |s.creatures| && u != t
    requires FirstSide(s.creatures[t]) == 1
    ensures FirstSide(s.creatures[u]) == 0
  {
    SumAtLeastTwo(FirstSide, s.creatures, t, u);
  }

  lemma PendingBounds(s: State)
    requires Counts(s)
    ensures 0 <= Pending(s) <= 1
    ensures forall t | 0 <= t < |s.creatures| && Baton(s.creatures[t]) == 1 && AtRead(s.creatures[t]) == 0 ::
        Pending(s) == 0
  {
    SumNonNegative(AtRead, s.creatures);
    SumNonNegative(Baton, s.creatures);
    SumDominated(AtRead, Baton, s.creatures);
    forall t | 0 <= t < |s.creatures| && Baton(s.creatures[t]) == 1 && AtRead(s.creatures[t]) == 0
      ensures Pending(s) == 0
    {
      BatonAlone(s, t, t);
      if Sum(AtRead, s.creatures) > 0 {
        var u := SumWitness(AtRead, s.creatures);
        BatonAlone(s, t, u);
      }
    }
  }

  lemma ExchangeMoves(t: nat, g: Globals, c: Creature)
    requires CanAct(g, c) && Exchange(g, t, c)
    requires SecondSide(c) == 1 ==> Proper(g.aColor) && g.aId != t
    requires AtRead(c) == 1 ==> Proper(g.bColor) && g.bId != t
    ensures var g', c' := Effect(t, g, c), Move(t, g, c);
            && Exchange(g', t, c') && g'.exitCode == g.exitCode
            && ((g'.aColor == g.aColor && g'.aId == g.aId) || FirstSide(c) == Baton(c) == 1)
            && ((g'.bColor == g.bColor && g'.bId == g.bId) || SecondSide(c) == 1)
  {
  }

  lemma ExchangeKept(meetings: int, s: State, t: nat)
    requires Counts(s) && Exchanges(meetings, s) && Enabled(s, t)
    ensures Step(s, t).g.exitCode == s.g.exitCode
    ensures forall u | 0 <= u < |s.creatures| :: Exchange(Step(s, t).g, u, Step(s, t).creatures[u])
  {
    var s', c := Step(s, t), s.creatures[t];
    if SecondSide(c) == 1 {
      var v := Partner(s, t);
      assert Exchange(s.g, v, s.creatures[v]);
    }
    PendingBounds(s);
    if AtRead(c) == 1 {
      SumAtLeast(AtRead, s.creatures, t);
      assert Exchange(s.g, t, c);
    }
    ExchangeMoves(t, s.g, c);
    forall u | 0 <= u < |s.creatures|
      ensures Exchange(s'.g, u, s'.creatures[u])
    {
      assert Exchange(s.g, u, s.creatures[u]);
      if u != t && Baton(c) == 1 {
        BatonAlone(s, t, u);
        if FirstSide(c) == 1 {
          FirstAlone(s, t, u);
        }
      }
    }
  }

  /** Who writes A and B, who appends to the views, and what that does to the pending count. */
  lemma ViewMoves(t: nat, g: Globals, c: Creature)
    requires CanAct(g, c)
    ensures var g', c' := Effect(t, g, c), Move(t, g, c);
            if c.pc == PostPriv then
              && g'.priv + AtRead(c') == g.priv + AtRead(c) + 1
              && g' == g.(priv := g'.priv, secondViews := g.secondViews + [View(t, c.color, c.otherId, c.otherColor)])
            else if c.pc == GetBId then
              && g'.priv + AtRead(c') == g.priv + AtRead(c) - 1
              && g' == g.(firstViews := g.firstViews + [View(t, c.color, g.bId, c.otherColor)])
            else
              && g'.priv + AtRead(c') == g.priv + AtRead(c)
              && g'.secondViews == g.secondViews && g'.firstViews == g.firstViews
              && (|| (g'.aColor == g.aColor && g'.aId == g.aId && g'.bColor == g.bColor && g'.bId == g.bId)
                  || (Baton(c) == 1 && AtRead(c) == 0))
  {
  }

  /** The second arrival records its view and leaves one meeting pending. */
  lemma ViewPosted(s: State, t: nat)
    requires Counts(s) && Views(s) && Enabled(s, t) && s.creatures[t].pc == PostPriv
    requires Exchange(s.g, t, s.creatures[t]) && Proper(s.g.aColor)
    ensures Views(Step(s, t))
  {
    ViewMoves(t, s.g, s.creatures[t]);
    SumUpdate(AtRead, s.creatures, t, Move(t, s.g, s.creatures[t]));
    PendingBounds(s);
  }

  /** The first arrival records the mirror image of the pending view. */
  lemma ViewRead(s: State, t: nat)
    requires Counts(s) && Views(s) && Enabled(s, t) && s.creatures[t].pc == GetBId
    requires Exchange(s.g, t, s.creatures[t])
    ensures Views(Step(s, t))
  {
    ViewMoves(t, s.g, s.creatures[t]);
    SumUpdate(AtRead, s.creatures, t, Move(t, s.g, s.creatures[t]));
    PendingBounds(s);
    SumAtLeast(AtRead, s.creatures, t);
    assert Pending(s) == 1;
  }

  lemma ViewsUntouched(s: State, t: nat)
    requires Counts(s) && Views(s) && Enabled(s, t) && s.creatures[t].pc != PostPriv && s.creatures[t].pc != GetBId
    ensures Views(Step(s, t))
  {
    ViewMoves(t, s.g, s.creatures[t]);
    SumUpdate(AtRead, s.creatures, t, Move(t, s.g, s.creatures[t]));
    PendingBounds(s);
  }

  lemma ViewsKept(meetings: int, s: State, t: nat)
    requires Counts(s) && Exchanges(meetings, s) && Enabled(s, t)
    ensures Views(Step(s, t))
  {
    assert Exchange(s.g, t, s.creatures[t]);
    if s.creatures[t].pc == PostPriv {
      var v := Partner(s, t);
      assert Exchange(s.g, v, s.creatures[v]);
      ViewPosted(s, t);
    } else if s.creatures[t].pc == GetBId {
      ViewRead(s, t);
    } else {
      ViewsUntouched(s, t);
    }
  }

  /** Either the first arrival's view or the meeting it is about to count changes the balance. */
  lemma CountedMoves(t: nat, g: Globals, c: Creature)
    requires CanAct(g, c)
    ensures var g', c' := Effect(t, g, c), Move(t, g, c);
            |g'.firstViews| + g'.left - AtDec(c') == |g.firstViews| + g.left - AtDec(c)
  {
  }

  lemma ViewsCounted(meetings: int, s: State, t: nat)
    requires Enabled(s, t) && |s.g.firstViews| == meetings - s.g.left + Sum(AtDec, s.creatures)
    ensures |Step(s, t).g.firstViews| == meetings - Step(s, t).g.left + Sum(AtDec, Step(s, t).creatures)
  {
    CountedMoves(t, s.g, s.creatures[t]);
    SumUpdate(AtDec, s.creatures, t, Move(t, s.g, s.creatures[t]));
  }

  lemma ExchangesKept(meetings: int, s: State, t: nat)
    requires Counts(s) && Exchanges(meetings, s) && Enabled(s, t)
    ensures Exchanges(meetings, Step(s, t)) && Step(s, t).g.exitCode == s.g.exitCode
  {
    ViewsKept(meetings, s, t);
    ExchangeKept(meetings, s, t);
    ViewsCounted(meetings, s, t);
  }

  // ---- Colours ----------------------------------------------------------------------------

  function Mix(c1: Color, c2: Color): Color {
    match ComplimentColor(c1, c2) case Mixed(color) => color case Exit(_) => c1
  }

  /** The complement fails exactly on a colour that is none of the three; it does not depend on
      the order, keeps equal colours, gives the third one for different ones, and modulo 3 it is
      minus the sum. */
  lemma ComplementLaws(c1: Color, c2: Color)
    ensures ComplimentColor(c1, c2).Mixed? <==> Proper(c1) && Proper(c2)
    ensures !Proper(c1) ==> ComplimentColor(c1, c2) == Exit(4)
    ensures Proper(c1) && !Proper(c2) ==>
              ComplimentColor(c1, c2) == Exit(if c1 == Blue then 1 else if c1 == Red then 2 else 3)
    ensures Proper(c1) && Proper(c2) ==>
              && ComplimentColor(c1, c2) == ComplimentColor(c2, c1)
              && Proper(Mix(c1, c2))
              && (if c1 == c2 then Mix(c1, c2) == c1 else Mix(c1, c2) != c1 && Mix(c1, c2) != c2)
              && (Number(Mix(c1, c2)) + Number(c1) + Number(c2)) % 3 == 0
  {
  }

  /** The number of the colour a creature has, or will have once it ends the meeting it is in. */
  function Shade(c: Creature): int {
    match c.pc
    case GetBId | Dec | TestZero | SetDone | RelMutexLast | RelPermit1 | RelPermit2 | Update =>
      Number(Mix(c.color, c.otherColor))
    case _ => Number(c.color)
  }

  function AtGetBColor(c: Creature): int { if c.pc == GetBColor then 1 else 0 }

  function ColourNumber(c: Color): int { Number(c) }

  /** The change of colour of a first arrival that is released and has not yet read B. */
  ghost function Owed(s: State): int {
    if s.g.priv + Sum(AtGetBColor, s.creatures) > 0
    then Number(Mix(s.g.aColor, s.g.bColor)) - Number(s.g.aColor) else 0
  }

  ghost predicate Colours(colors: seq<Color>, s: State) {
    Total(s) % 3 == Sum(ColourNumber, colors) % 3
  }

  /** The colours are settled when the second arrival releases the first; the first one's change
      is owed until it has read B. */
  lemma ShadeMoves(t: nat, g: Globals, c: Creature)
    requires CanAct(g, c) && Exchange(g, t, c)
    ensures var g', c' := Effect(t, g, c), Move(t, g, c);
            if c.pc == PostPriv then
              && g'.priv + AtGetBColor(c') == g.priv + AtGetBColor(c) + 1
              && Shade(c') - Shade(c) == Number(Mix(g.bColor, g.aColor)) - Number(g.bColor)
              && g'.aColor == g.aColor && g'.bColor == g.bColor
            else if c.pc == GetBColor then
              && g'.priv + AtGetBColor(c') == g.priv + AtGetBColor(c) - 1
              && Shade(c') - Shade(c) == Number(Mix(g.aColor, g.bColor)) - Number(g.aColor)
            else
              && g'.priv + AtGetBColor(c') == g.priv + AtGetBColor(c)
              && Shade(c') == Shade(c)
              && ((g'.aColor == g.aColor && g'.bColor == g.bColor) || (Baton(c) == 1 && AtRead(c) == 0))
  {
    if c.pc == PostPriv || c.pc == GetBColor {
    } else {
      ShadeStays(t, g, c);
    }
  }

  lemma ShadeStays(t: nat, g: Globals, c: Creature)
    requires CanAct(g, c) && Exchange(g, t, c) && c.pc != PostPriv && c.pc != GetBColor
    ensures var g', c' := Effect(t, g, c), Move(t, g, c);
            && g'.priv + AtGetBColor(c') == g.priv + AtGetBColor(c)
            && Shade(c') == Shade(c)
            && ((g'.aColor == g.aColor && g'.bColor == g.bColor) || (Baton(c) == 1 && AtRead(c) == 0))
  {
  }

  ghost function Total(s: State): int { Sum(Shade, s.creatures) + Owed(s) }

  lemma TotalMoves(meetings: int, s: State, t: nat)
    requires Counts(s) && Exchanges(meetings, s) && Enabled(s, t)
    ensures var d := Total(Step(s, t)) - Total(s); d == 0 || d == 3 || d == -3
  {
    var c, c' := s.creatures[t], Move(t, s.g, s.creatures[t]);
    assert Exchange(s.g, t, c);
    ShadeMoves(t, s.g, c);
    SumUpdate(Shade, s.creatures, t, c');
    SumUpdate(AtGetBColor, s.creatures, t, c');
    SumNonNegative(AtGetBColor, s.creatures);
    SumDominated(AtGetBColor, AtRead, s.creatures);
    PendingBounds(s);
    if c.pc == GetBColor {
      SumAtLeast(AtGetBColor, s.creatures, t);
    } else if c.pc == PostPriv {
      var v := Partner(s, t);
      assert Exchange(s.g, v, s.creatures[v]);
      PairShift(s.g.aColor, s.g.bColor);
    }
  }

  lemma PairShift(a: Color, b: Color)
    requires Proper(a) && Proper(b)
    ensures var d := Number(Mix(a, b)) + Number(Mix(b, a)) - Number(a) - Number(b); d == 0 || d == 3 || d == -3
  {
  }

  lemma ColoursKept(colors: seq<Color>, meetings: int, s: State, t: nat)
    requires Counts(s) && Exchanges(meetings, s) && Enabled(s, t)
    requires Colours(colors, s)
    ensures Colours(colors, Step(s, t))
  {
    TotalMoves(meetings, s, t);
    Mod3(Total(s), Total(Step(s, t)) - Total(s));
  }

  lemma Mod3(x: int, d: int)
    requires d == 0 || d == 3 || d == -3
    ensures (x + d) % 3 == x % 3
  {
  }

  // ---- Printing and joining ------------------------------------------------------------------

  function HasExited(c: Creature): int { if c.pc == Exited then 1 else 0 }

  ghost predicate Printing(s: State) {
    && s.g.printSem + Sum(HasExited, s.creatures) == s.posted <= |s.creatures|
    && s.joined <= |s.creatures|
    && (s.joined > 0 ==> s.posted == |s.creatures|)
    && (forall u | 0 <= u < s.joined :: s.creatures[u].pc == Exited)
    && s.total == Sum(Met, s.creatures[..s.joined])
  }

  lemma PrintingKept(s: State, t: nat)
    requires Printing(s) && Enabled(s, t)
    ensures Printing(Step(s, t))
  {
    SumUpdate(HasExited, s.creatures, t, Move(t, s.g, s.creatures[t]));
    assert Step(s, t).creatures[..s.joined] == s.creatures[..s.joined];
    PrintMoves(t, s.g, s.creatures[t]);
  }

  lemma PrintMoves(t: nat, g: Globals, c: Creature)
    requires CanAct(g, c)
    ensures Effect(t, g, c).printSem + HasExited(Move(t, g, c)) == g.printSem + HasExited(c)
  {
  }

  lemma PrintingKeptByMain(s: State)
    requires Printing(s) && MainEnabled(s)
    ensures Printing(MainStep(s))
  {
    if s.posted == |s.creatures| {
      assert s.creatures[..s.joined + 1] == s.creatures[..s.joined] + [s.creatures[s.joined]];
      SumAppend(Met, s.creatures[..s.joined], [s.creatures[s.joined]]);
    }
  }

  // ---- Whole runs ----------------------------------------------------------------------------

  ghost predicate Inv(colors: seq<Color>, meetings: int, s: State) {
    && |s.creatures| == |colors| && s.g.exitCode == 0
    && Counts(s) && Meetings(meetings, s) && Exchanges(meetings, s) && Colours(colors, s) && Printing(s)
  }

  lemma InitCounts(colors: seq<Color>, meetings: int, s: State)
    requires Init(colors, meetings, s) && meetings >= 1
    ensures Counts(s) && Meetings(meetings, s)
  {
    SumBounds(Permits, s.creatures, 0, 0);
    SumBounds(Baton, s.creatures, 0, 0);
    SumBounds(FirstSide, s.creatures, 0, 0);
    SumBounds(SecondSide, s.creatures, 0, 0);
    SumBounds(Credit, s.creatures, 0, 0);
  }

  lemma InitExchanges(colors: seq<Color>, meetings: int, s: State)
    requires Init(colors, meetings, s)
    requires forall u | 0 <= u < |colors| :: Proper(colors[u])
    ensures Exchanges(meetings, s)
  {
    SumBounds(AtRead, s.creatures, 0, 0);
    SumBounds(AtDec, s.creatures, 0, 0);
    SumBounds(AtGetBColor, s.creatures, 0, 0);
  }

  lemma InitColours(colors: seq<Color>, meetings: int, s: State)
    requires Init(colors, meetings, s)
    ensures Colours(colors, s) && Printing(s)
  {
    SumBounds(AtGetBColor, s.creatures, 0, 0);
    SumBounds(HasExited, s.creatures, 0, 0);
    SumMatch(Shade, s.creatures, ColourNumber, colors);
  }

  lemma InitInv(colors: seq<Color>, meetings: int, s: State)
    requires Init(colors, meetings, s) && meetings >= 1
    requires forall u | 0 <= u < |colors| :: Proper(colors[u])
    ensures Inv(colors, meetings, s)
  {
    InitCounts(colors, meetings, s);
    InitExchanges(colors, meetings, s);
    InitColours(colors, meetings, s);
  }

  lemma NextInv(colors: seq<Color>, meetings: int, s: State, s': State)
    requires Inv(colors, meetings, s) && Next(s, s')
    ensures Inv(colors, meetings, s')
  {
    if MainEnabled(s) && s' == MainStep(s) {
      PrintingKeptByMain(s);
      MainKeeps(colors, meetings, s);
    } else {
      var t: nat :| Enabled(s, t) && s' == Step(s, t);
      CountsKept(s, t);
      ExchangesKept(meetings, s, t);
      MeetingsKept(meetings, s, t);
      ColoursKept(colors, meetings, s, t);
      PrintingKept(s, t);
    }
  }

  /** The main thread touches neither the creatures nor any global but sem_print. */
  lemma MainKeeps(colors: seq<Color>, meetings: int, s: State)
    requires Counts(s) && Meetings(meetings, s) && Exchanges(meetings, s) && Colours(colors, s) && MainEnabled(s)
    ensures var s' := MainStep(s);
            Counts(s') && Meetings(meetings, s') && Exchanges(meetings, s') && Colours(colors, s')
  {
    var s' := MainStep(s);
    MainTouches(s);
    CountsFrame(s, s');
    MeetingsFrame(meetings, s, s');
    ExchangesFrame(meetings, s, s');
    ColoursFrame(colors, s, s');
  }

  lemma MainTouches(s: State)
    requires MainEnabled(s)
    ensures MainStep(s).creatures == s.creatures && MainStep(s).g == s.g.(printSem := MainStep(s).g.printSem)
  {
  }

  lemma ColoursFrame(colors: seq<Color>, s: State, s': State)
    requires Colours(colors, s) && s'.creatures == s.creatures && s'.g == s.g.(printSem := s'.g.printSem)
    ensures Colours(colors, s')
  {
    assert Owed(s') == Owed(s);
  }

  lemma CountsFrame(s: State, s': State)
    requires Counts(s) && s'.creatures == s.creatures && s'.g == s.g.(printSem := s'.g.printSem)
    ensures Counts(s')
  {
    forall u | 0 <= u < |s.creatures| ensures Turn(s'.g, s'.creatures[u]) {
      assert Turn(s.g, s.creatures[u]);
    }
  }

  lemma MeetingsFrame(meetings: int, s: State, s': State)
    requires Meetings(meetings, s) && s'.creatures == s.creatures && s'.g == s.g.(printSem := s'.g.printSem)
    ensures Meetings(meetings, s')
  {
    forall u | 0 <= u < |s.creatures| ensures Stage(s'.g, s'.creatures[u]) {
      assert Stage(s.g, s.creatures[u]);
    }
  }

  lemma ExchangesFrame(meetings: int, s: State, s': State)
    requires Exchanges(meetings, s) && s'.creatures == s.creatures && s'.g == s.g.(printSem := s'.g.printSem)
    ensures Exchanges(meetings, s')
  {
    forall u | 0 <= u < |s.creatures| ensures Exchange(s'.g, u, s'.creatures[u]) {
      assert Exchange(s.g, u, s.creatures[u]);
    }
  }

  /** No reachable state is stuck: somebody can move until everybody is joined. */
  lemma NotStuck(colors: seq<Color>, meetings: int, s: State)
    requires Inv(colors, meetings, s) && |colors| >= 2
    ensures Finished(s) || Moves(s)
  {
    if MainEnabled(s) {
      assert Next(s, MainStep(s));
    } else if !Finished(s) {
      var t := Movable(colors, meetings, s, s.joined);
      assert Next(s, Step(s, t));
    }
  }

  /** If creature u has not exited, some creature can move. */
  lemma Movable(colors: seq<Color>, meetings: int, s: State, u: nat) returns (t: nat)
    requires Inv(colors, meetings, s) && |colors| >= 2
    requires s.posted == |s.creatures| && u < |s.creatures| && s.creatures[u].pc != Exited
    ensures Enabled(s, t)
  {
    t := u;
    match s.creatures[u].pc
    case AcqPermit => t := AtPermit(colors, meetings, s, u);
    case AcqMutex => t := AtMutex(colors, meetings, s);
    case AcqPriv => t := AtPriv(colors, meetings, s, u);
    case Print => PrintPossible(s, u);
    case _ =>
  }

  lemma PrintPossible(s: State, u: nat)
    requires Printing(s) && s.posted == |s.creatures| && u < |s.creatures| && s.creatures[u].pc == Print
    ensures s.g.printSem > 0
  {
    SumRest(HasExited, s.creatures, u);
    SumBounds(HasExited, s.creatures[..u] + s.creatures[u + 1..], 0, 1);
  }

  /** Whoever has the mutex can move; if it is in sem_priv, the first arrival can. Both hold a permit. */
  lemma AtMutex(colors: seq<Color>, meetings: int, s: State) returns (t: nat)
    requires Inv(colors, meetings, s)
    requires exists u: nat :: u < |s.creatures| && s.creatures[u].pc == AcqMutex
    ensures Enabled(s, t) && t < |s.creatures| && Permits(s.creatures[t]) > 0
  {
    if s.g.mutex > 0 {
      t :| 0 <= t < |s.creatures| && s.creatures[t].pc == AcqMutex;
    } else if s.g.priv > 0 {
      SumNonNegative(SecondSide, s.creatures);
      t := SumWitness(FirstSide, s.creatures);
      if Baton(s.creatures[t]) == 1 {
        BatonAlone(s, t, t);
      }
    } else {
      t := SumWitness(Baton, s.creatures);
    }
  }

  /** A first arrival waiting alone: its partner is half-way, or somebody else is still coming. */
  lemma AtPriv(colors: seq<Color>, meetings: int, s: State, u: nat) returns (t: nat)
    requires Inv(colors, meetings, s) && |colors| >= 2
    requires s.posted == |s.creatures| && u < |s.creatures| && s.creatures[u].pc == AcqPriv
    ensures Enabled(s, t)
  {
    t := if u == 0 then 1 else 0;
    assert Stage(s.g, s.creatures[t]) && Stage(s.g, s.creatures[u]);
    match s.creatures[t].pc
    case AcqMutex => t := AtMutex(colors, meetings, s);
    case AcqPriv => FirstAlone(s, u, t);
    case AcqPermit =>
      if s.g.permits == 0 {
        t := AtPermit(colors, meetings, s, t);
      }
    case _ =>
  }

  /** A creature that waits for a permit can move, or somebody who holds one can. */
  lemma AtPermit(colors: seq<Color>, meetings: int, s: State, u: nat) returns (t: nat)
    requires Inv(colors, meetings, s) && u < |s.creatures| && s.creatures[u].pc == AcqPermit
    ensures Enabled(s, t) && t < |s.creatures|
    ensures if s.g.permits > 0 then t == u else Permits(s.creatures[t]) > 0
  {
    if s.g.permits > 0 {
      t := u;
    } else if s.g.priv > 0 {
      SumNonNegative(SecondSide, s.creatures);
      t := SumWitness(FirstSide, s.creatures);
      if Baton(s.creatures[t]) == 1 {
        BatonAlone(s, t, t);
      }
    } else {
      t := SumWitness(Permits, s.creatures);
      if s.creatures[t].pc == AcqMutex {
        t := AtMutex(colors, meetings, s);
      } else if s.creatures[t].pc == AcqPriv {
        var v := AnotherInside(s, t);
        if s.creatures[v].pc == AcqMutex {
          t := AtMutex(colors, meetings, s);
        } else {
          if s.creatures[v].pc == AcqPriv {
            FirstAlone(s, t, v);
          }
          t := v;
        }
      }
    }
  }

  /** With no permit left and sem_priv empty, a waiting first arrival is not the only one inside. */
  lemma AnotherInside(s: State, t: nat) returns (v: nat)
    requires Counts(s) && t < |s.creatures| && s.creatures[t].pc == AcqPriv
    requires s.g.permits == 0 && s.g.priv == 0
    ensures v < |s.creatures| && v != t && Permits(s.creatures[v]) > 0
  {
    SumRest(Permits, s.creatures, t);
    v := SumWitness(Permits, s.creatures[..t] + s.creatures[t + 1..]);
    if v >= t {
      v := v + 1;
    }
  }

  // ---- Every run ends -----------------------------------------------------------------------

  function Rank(pc: Pc): int {
    match pc
    case Loop => 30 case AcqPermit => 29 case Check1 => 28 case AcqMutex => 27 case Check2 => 26
    case Test => 25 case SetFirst => 24 case PutAColor => 23 case PutAId => 22 case RelMutexFirst => 21
    case AcqPriv => 20 case GetBColor => 19 case GetBId => 18 case Dec => 17 case TestZero => 16
    case SetDone => 15 case RelMutexLast => 14 case RelPermit1 => 13 case RelPermit2 => 12
    case ClrFirst => 24 case PutBColor => 23 case PutBId => 22 case GetAColor => 21 case GetAId => 20
    case PostPriv => 19 case Update => 11 case QuitMutex => 10 case QuitPermit => 9
    case Print => 2 case Exited => 0
  }

  /** The steps to the end of the loop body, less 20 for each meeting counted. */
  function Work(c: Creature): int { Rank(c.pc) - 20 * Met(c) }

  function Unended(c: Creature): int { match c.pc case GetBColor | GetBId | Dec => 1 case _ => 0 }

  ghost function Measure(meetings: int, s: State): int {
    Sum(Work, s.creatures) + 40 * meetings + (|s.creatures| - s.posted) + (|s.creatures| - s.joined)
  }

  lemma MeasureDrops(colors: seq<Color>, meetings: int, s: State, s': State)
    requires Inv(colors, meetings, s) && Next(s, s')
    ensures Measure(meetings, s') < Measure(meetings, s)
  {
    if !(MainEnabled(s) && s' == MainStep(s)) {
      var t: nat :| Enabled(s, t) && s' == Step(s, t);
      assert Exchange(s.g, t, s.creatures[t]);
      WorkDrops(t, s.g, s.creatures[t]);
      SumUpdate(Work, s.creatures, t, Move(t, s.g, s.creatures[t]));
    }
  }

  lemma WorkDrops(t: nat, g: Globals, c: Creature)
    requires CanAct(g, c) && Exchange(g, t, c)
    ensures Work(Move(t, g, c)) < Work(c)
  {
  }

  /** After the last meeting nobody is inside one. */
  lemma NobodyInside(meetings: int, s: State)
    requires Meetings(meetings, s) && s.g.left == 0
    ensures Sum(FirstSide, s.creatures) == Sum(Unended, s.creatures) == 0
  {
    forall u | 0 <= u < |s.creatures| ensures FirstSide(s.creatures[u]) == Unended(s.creatures[u]) == 0 {
      assert Stage(s.g, s.creatures[u]);
    }
    SumBounds(FirstSide, s.creatures, 0, 0);
    SumBounds(Unended, s.creatures, 0, 0);
  }

  /** No creature counts a meeting beyond the requested ones. */
  lemma MetBound(meetings: int, s: State)
    requires Counts(s) && Meetings(meetings, s)
    ensures Sum(Met, s.creatures) <= 2 * meetings
  {
    SumDominated(Unended, Baton, s.creatures);
    SumCombine(CreditAndEnd, Credit, Unended, 1, 1, s.creatures);
    SumDominated(Met, CreditAndEnd, s.creatures);
    SumNonNegative(SecondSide, s.creatures);
    if s.g.left == 0 {
      NobodyInside(meetings, s);
    }
  }

  function CreditAndEnd(c: Creature): int { Credit(c) + Unended(c) }

  function MetDiscount(c: Creature): int { -20 * Met(c) }

  lemma MeasureBound(colors: seq<Color>, meetings: int, s: State)
    requires Inv(colors, meetings, s)
    ensures 0 <= Measure(meetings, s)
  {
    MetBound(meetings, s);
    SumCombine(MetDiscount, Met, Met, -20, 0, s.creatures);
    SumDominated(MetDiscount, Work, s.creatures);
  }

  /** Nobody gives up while it holds the mutex, nobody has met itself, and the two sides of every
      meeting saw exactly each other. */
  predicate Sane(s: State) {
    && (forall u | 0 <= u < |s.creatures| :: s.creatures[u].pc != QuitMutex && s.creatures[u].metSelf == 0)
    && |s.g.firstViews| <= |s.g.secondViews|
    && (forall k | 0 <= k < |s.g.firstViews| :: Mirror(s.g.firstViews[k], s.g.secondViews[k]))
  }

  lemma InvIsSane(colors: seq<Color>, meetings: int, s: State)
    requires Inv(colors, meetings, s)
    ensures Sane(s)
  {
    SumNonNegative(AtRead, s.creatures);
    forall u | 0 <= u < |s.creatures| ensures s.creatures[u].pc != QuitMutex && s.creatures[u].metSelf == 0 {
      assert Stage(s.g, s.creatures[u]) && Exchange(s.g, u, s.creatures[u]);
    }
  }

  ghost predicate Moves(s: State) { exists s' :: Next(s, s') }

  /** In any run of at least two creatures and at least one meeting: nothing is stuck, nobody meets
      itself, partners see each other, no exit is called, and the run is no longer than the meetings
      allow. */
  lemma EveryState(colors: seq<Color>, meetings: int, run: seq<State>, i: nat)
    requires |colors| >= 2 && meetings >= 1
    requires forall u | 0 <= u < |colors| :: Proper(colors[u])
    requires Run(colors, meetings, run) && i < |run|
    ensures Inv(colors, meetings, run[i]) && Sane(run[i])
    ensures Finished(run[i]) || Moves(run[i])
    ensures i <= 32 * |colors| + 40 * meetings
  {
    var init := (s: State) => Init(colors, meetings, s);
    var inv := (s: State) => Inv(colors, meetings, s);
    forall s | Init(colors, meetings, s) ensures Inv(colors, meetings, s) {
      InitInv(colors, meetings, s);
    }
    forall s, s' | Inv(colors, meetings, s) && Next(s, s')
      ensures Inv(colors, meetings, s') && Measure(meetings, s') < Measure(meetings, s)
    {
      NextInv(colors, meetings, s, s');
      MeasureDrops(colors, meetings, s, s');
    }
    forall s | Inv(colors, meetings, s) ensures Measure(meetings, s) >= 0 {
      MeasureBound(colors, meetings, s);
    }
    Invariance(init, Next, inv, run, i);
    NotStuck(colors, meetings, run[i]);
    InvIsSane(colors, meetings, run[i]);
    Termination(init, Next, inv, (s: State) => Measure(meetings, s), run, i);
    SumBounds(Work, run[0].creatures, 30, 30);
  }

  /** Once all creatures have exited, nothing is owed to anybody. */
  lemma AllExited(s: State)
    requires forall u | 0 <= u < |s.creatures| :: s.creatures[u].pc == Exited
    ensures Sum(FirstSide, s.creatures) == Sum(SecondSide, s.creatures) == 0
    ensures Sum(AtRead, s.creatures) == Sum(AtDec, s.creatures) == Sum(AtGetBColor, s.creatures) == 0
  {
    SumBounds(FirstSide, s.creatures, 0, 0);
    SumBounds(SecondSide, s.creatures, 0, 0);
    SumBounds(AtRead, s.creatures, 0, 0);
    SumBounds(AtDec, s.creatures, 0, 0);
    SumBounds(AtGetBColor, s.creatures, 0, 0);
  }

  /** What was credited has been counted, and every colour is settled. */
  lemma AllSettled(s: State)
    requires forall u | 0 <= u < |s.creatures| :: s.creatures[u].pc == Exited
    ensures Sum(Credit, s.creatures) == Sum(Met, s.creatures)
    ensures Sum(Shade, s.creatures) == Sum(Hue, s.creatures)
  {
    SumMatch(Credit, s.creatures, Met, s.creatures);
    SumMatch(Shade, s.creatures, Hue, s.creatures);
  }

  /** When run_the_meetings ends, exactly the requested meetings have happened, the printed total
      is twice their number, and the colours add up as at the start modulo 3. */
  lemma FinalState(colors: seq<Color>, meetings: int, run: seq<State>)
    requires |colors| >= 2 && meetings >= 1
    requires forall u | 0 <= u < |colors| :: Proper(colors[u])
    requires Run(colors, meetings, run) && Finished(run[|run| - 1])
    ensures var s := run[|run| - 1];
            && s.total == 2 * meetings && s.g.left == 0 && s.g.done
            && |s.g.firstViews| == |s.g.secondViews| == meetings
            && (forall k | 0 <= k < meetings :: Mirror(s.g.firstViews[k], s.g.secondViews[k]))
            && |s.creatures| == |colors|
            && (forall u | 0 <= u < |colors| :: s.creatures[u].metSelf == 0)
            && Sum(Hue, s.creatures) % 3 == Sum(ColourNumber, colors) % 3
  {
    EveryState(colors, meetings, run, |run| - 1);
    Final(colors, meetings, run[|run| - 1]);
  }

  lemma Final(colors: seq<Color>, meetings: int, s: State)
    requires |colors| >= 2 && Inv(colors, meetings, s) && Finished(s)
    ensures s.total == 2 * meetings && s.g.left == 0 && s.g.done
    ensures |s.g.firstViews| == |s.g.secondViews| == meetings
    ensures forall k | 0 <= k < meetings :: Mirror(s.g.firstViews[k], s.g.secondViews[k])
    ensures forall u | 0 <= u < |colors| :: s.creatures[u].metSelf == 0
    ensures Sum(Hue, s.creatures) % 3 == Sum(ColourNumber, colors) % 3
  {
    AllExited(s);
    AllSettled(s);
    assert s.creatures[..s.joined] == s.creatures;
    assert Stage(s.g, s.creatures[0]);
    forall u | 0 <= u < |colors| ensures s.creatures[u].metSelf == 0 {
      assert Exchange(s.g, u, s.creatures[u]);
    }
  }

  function Hue(c: Creature): int { Number(c.color) }

  // ---- A creature alone -------------------------------------------------------------------------

  /** The only creature on its way to wait for a partner. */
  predicate Alone(s: State) {
    && |s.creatures| == 1 && s.posted <= 1 && s.joined == 0
    && s.g.exitCode == 0 && !s.g.done && !s.g.first && s.g.priv == 0
    && match s.creatures[0].pc
       case Loop | AcqPermit => s.g.permits > 0 && s.g.mutex > 0
       case Check1 | AcqMutex => s.g.mutex > 0
       case Check2 | Test | SetFirst => true
       case _ => false
  }

  predicate AloneInside(s: State) {
    && |s.creatures| == 1 && s.posted <= 1 && s.joined == 0 && s.g.exitCode == 0 && s.g.priv == 0
    && match s.creatures[0].pc case PutAColor | PutAId | RelMutexFirst | AcqPriv => true case _ => false
  }

  lemma AloneStep(s: State)
    requires (Alone(s) || AloneInside(s)) && s.creatures[0].pc != AcqPriv
    ensures Enabled(s, 0)
    ensures var s' := Step(s, 0);
            (Alone(s') || AloneInside(s')) && Rank(s'.creatures[0].pc) < Rank(s.creatures[0].pc)
  {
  }

  lemma AloneNext(s: State, s': State)
    requires (Alone(s) || AloneInside(s)) && Next(s, s')
    ensures Alone(s') || AloneInside(s')
  {
    if MainEnabled(s) && s' == MainStep(s) {
    } else {
      var t: nat :| Enabled(s, t) && s' == Step(s, t);
      AloneStep(s);
    }
  }

  lemma AloneEnd(s: State)
    requires Alone(s) || AloneInside(s)
    ensures !Finished(s) && (!Moves(s) <==> s.posted == 1 && s.creatures[0].pc == AcqPriv)
  {
    if s.posted == 0 {
      assert Next(s, MainStep(s));
    } else if s.creatures[0].pc != AcqPriv {
      AloneStep(s);
      assert Next(s, Step(s, 0));
    } else {
      assert forall t: nat :: !Enabled(s, t);
    }
  }

  /** In every state of every run of a single creature: it is not finished, and it is stuck exactly if the
      creature waits at sem_priv and main has nothing left to post. */
  lemma {:induction false} LoneCreature(color: Color, meetings: int, run: seq<State>, i: nat)
    requires Run([color], meetings, run) && i < |run|
    ensures Alone(run[i]) || AloneInside(run[i])
    ensures !Finished(run[i])
    ensures !Moves(run[i]) <==> run[i].posted == 1 && run[i].creatures[0].pc == AcqPriv
  {
    if i > 0 {
      LoneCreature(color, meetings, run, i - 1);
      AloneNext(run[i - 1], run[i]);
    }
    AloneEnd(run[i]);
  }

  lemma {:induction false} Waits(color: Color, meetings: int, run: seq<State>) returns (whole: seq<State>)
    requires Run([color], meetings, run)
    requires var s := run[|run| - 1]; s.posted == 1 && (Alone(s) || AloneInside(s))
    ensures Run([color], meetings, whole) && !Moves(whole[|whole| - 1])
    decreases Rank(run[|run| - 1].creatures[0].pc)
  {
    var s := run[|run| - 1];
    AloneEnd(s);
    if s.creatures[0].pc == AcqPriv {
      whole := run;
    } else {
      AloneStep(s);
      assert Next(s, Step(s, 0));
      RunGrows((s: State) => Init([color], meetings, s), Next, run, Step(s, 0));
      whole := Waits(color, meetings, run + [Step(s, 0)]);
    }
  }

  /** Such a run exists: the creature ends at sem_priv for ever. */
  lemma LoneCreatureWaits(color: Color, meetings: int) returns (whole: seq<State>)
    ensures Run([color], meetings, whole)
    ensures var s := whole[|whole| - 1]; !Finished(s) && !Moves(s) && |s.creatures| == 1 && s.creatures[0].pc == AcqPriv
  {
    var g := Globals(2, 1, 0, 0, meetings, false, false, Zero, 0, Zero, 0, 0, [], []);
    var s := State(g, [Creature(Loop, color, Zero, 0, 0, 0)], 0, 0, 0);
    assert Next(s, MainStep(s));
    whole := Waits(color, meetings, [s, MainStep(s)]);
    LoneCreature(color, meetings, whole, |whole| - 1);
  }

  /** The rendezvous never gets stuck exactly if there are at least two creatures. */
  lemma TwoAreNeeded(colors: seq<Color>, meetings: int)
    requires |colors| >= 1 && meetings >= 1 && forall u | 0 <= u < |colors| :: Proper(colors[u])
    ensures |colors| >= 2 <==>
              forall run | Run(colors, meetings, run) :: Finished(run[|run| - 1]) || Moves(run[|run| - 1])
  {
    if |colors| >= 2 {
      forall run | Run(colors, meetings, run) ensures Finished(run[|run| - 1]) || Moves(run[|run| - 1]) {
        EveryState(colors, meetings, run, |run| - 1);
      }
    } else {
      assert colors == [colors[0]];
      var whole := LoneCreatureWaits(colors[0], meetings);
    }
  }

  // ---- No meeting requested ---------------------------------------------------------------------

  /** meetings_left is past 0, so that it never gets there and nobody leaves the loop. */
  predicate Endless(s: State) {
    && s.g.left <= 0 && !s.g.done && s.joined == 0
    && forall u | 0 <= u < |s.creatures| :: Trapped(s.g.left, s.creatures[u].pc)
  }

  predicate Trapped(left: int, pc: Pc) {
    match pc
    case QuitMutex | QuitPermit | SetDone | Print | Exited => false
    case TestZero => left < 0
    case _ => true
  }

  lemma EndlessKept(s: State, s': State)
    requires Endless(s) && |s.creatures| > 0 && Next(s, s')
    ensures Endless(s') && |s'.creatures| == |s.creatures|
  {
    assert Trapped(s.g.left, s.creatures[0].pc);
    if t: nat :| Enabled(s, t) && s' == Step(s, t) {
      assert Trapped(s.g.left, s.creatures[t].pc);
      forall u | 0 <= u < |s'.creatures| ensures Trapped(s'.g.left, s'.creatures[u].pc) {
        assert Trapped(s.g.left, s.creatures[u].pc);
      }
    }
  }

  /** If no meeting is requested, done is never set and no run ends. */
  lemma {:induction false} NeverDone(colors: seq<Color>, meetings: int, run: seq<State>, i: nat)
    requires |colors| >= 1 && meetings <= 0 && Run(colors, meetings, run) && i < |run|
    ensures Endless(run[i]) && |run[i].creatures| == |colors| && !run[i].g.done && !Finished(run[i])
  {
    if i > 0 {
      NeverDone(colors, meetings, run, i - 1);
      assert Next(run[i - 1], run[i]);
      EndlessKept(run[i - 1], run[i]);
    }
  }

  lemma Extended(colors: seq<Color>, meetings: int, run: seq<State>, s: State)
    requires Run(colors, meetings, run) && Next(run[|run| - 1], s)
    ensures Run(colors, meetings, run + [s])
  {
    RunGrows((t: State) => Init(colors, meetings, t), Next, run, s);
  }

  lemma NotTheEnd(colors: seq<Color>, meetings: int, run: seq<State>)
    requires |colors| >= 2 && meetings >= 1 && forall u | 0 <= u < |colors| :: Proper(colors[u])
    requires Run(colors, meetings, run)
    ensures Finished(run[|run| - 1]) || Moves(run[|run| - 1])
    ensures |run| <= 32 * |colors| + 40 * meetings + 1
  {
    EveryState(colors, meetings, run, |run| - 1);
  }

  /** Otherwise every run can be led to its end. */
  lemma {:induction false} Completed(colors: seq<Color>, meetings: int, run: seq<State>) returns (whole: seq<State>)
    requires |colors| >= 2 && meetings >= 1 && forall u | 0 <= u < |colors| :: Proper(colors[u])
    requires Run(colors, meetings, run)
    ensures Run(colors, meetings, whole) && Finished(whole[|whole| - 1])
    decreases 32 * |colors| + 40 * meetings + 1 - |run|
  {
    NotTheEnd(colors, meetings, run);
    if Finished(run[|run| - 1]) {
      whole := run;
    } else {
      var s' :| Next(run[|run| - 1], s');
      Extended(colors, meetings, run, s');
      whole := Completed(colors, meetings, run + [s']);
    }
  }

  /** The program ends exactly if at least one meeting is requested. */
  lemma MeetingsAreNeeded(colors: seq<Color>, meetings: int)
    requires |colors| >= 2 && forall u | 0 <= u < |colors| :: Proper(colors[u])
    ensures meetings >= 1 <==> exists run :: Run(colors, meetings, run) && Finished(run[|run| - 1])
  {
    if meetings >= 1 {
      var run := Completed(colors, meetings, [AtStart(colors, meetings)]);
    } else {
      forall run | Run(colors, meetings, run) ensures !Finished(run[|run| - 1]) {
        NeverDone(colors, meetings, run, |run| - 1);
      }
    }
  }

  function AtStart(colors: seq<Color>, meetings: int): State {
    State(Globals(2, 1, 0, 0, meetings, false, false, Zero, 0, Zero, 0, 0, [], []),
          seq(|colors|, u requires 0 <= u < |colors| => Creature(Loop, colors[u], Zero, 0, 0, 0)), 0, 0, 0)
  }
}
