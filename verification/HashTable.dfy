/** The parallel hash table: put threads prepend entries to the chains of the buckets, one lock per
    bucket and one step per shared access; get threads then look every key up. */
module HashTable {
  import opened Arithmetic
  import opened Runs
  import opened Sequences
  import opened Sums

  /** The keys to insert, the number of threads and the number of buckets. */
  datatype Config = Config(keys: seq<int>, threads: nat, buckets: nat)

  ghost predicate Valid(c: Config) {
    c.threads > 0 && c.buckets > 0 && forall j | 0 <= j < |c.keys| :: c.keys[j] >= 0
  }

  const NULL := -1

  datatype Entry = Entry(key: int, val: int, next: int)

  datatype Pc =
    | LoopTest    // key < NUM_KEYS ?
    | Allocate
    | Lock
    | SetNext     // e->next = table[i]
    | SetKey | SetVal
    | Publish     // table[i] = e
    | Unlock
    | Advance     // key += num_threads
    | Done

  datatype Thread = Thread(pc: Pc, j: nat)

  datatype Owner = Free | Held(thread: nat)

  /** Every index allocates exactly one entry, so entries[j] is the one allocated for index j and j is
      its address. chains records the entries that have been linked into each bucket, front first; no
      step reads it. */
  datatype State = State(entries: seq<Entry>, table: seq<int>, locks: seq<Owner>, threads: seq<Thread>,
                         chains: seq<seq<int>>)

  ghost predicate Init(c: Config, s: State) {
    && |s.entries| == |c.keys| && |s.table| == |s.locks| == |s.chains| == c.buckets && |s.threads| == c.threads
    && (forall b | 0 <= b < c.buckets :: s.table[b] == NULL && s.locks[b] == Free && s.chains[b] == [])
    && (forall t | 0 <= t < c.threads :: s.threads[t] == Thread(LoopTest, t))
  }

  function Bucket(c: Config, j: int): int
    requires c.buckets > 0 && 0 <= j < |c.keys|
  {
    c.keys[j] % c.buckets
  }

  predicate Shaped(c: Config, s: State) {
    && |s.entries| == |c.keys| && |s.table| == |s.locks| == |s.chains| == c.buckets && |s.threads| == c.threads
    && c.buckets > 0
    && forall t | 0 <= t < c.threads :: s.threads[t].pc != LoopTest && s.threads[t].pc != Done ==>
        s.threads[t].j < |c.keys|
  }

  predicate Enabled(c: Config, s: State, t: nat)
    requires Shaped(c, s)
  {
    && t < c.threads && s.threads[t].pc != Done
    && (s.threads[t].pc == Lock ==> s.locks[Bucket(c, s.threads[t].j)] == Free)
  }

  function Go(s: State, t: nat, pc: Pc): State
    requires t < |s.threads|
  {
    s.(threads := s.threads[t := s.threads[t].(pc := pc)])
  }

  function Step(c: Config, s: State, t: nat): State
    requires Shaped(c, s) && t < c.threads
  {
    var j := s.threads[t].j;
    match s.threads[t].pc
    case LoopTest => Go(s, t, if j < |c.keys| then Allocate else Done)
    case Allocate => Go(s, t, Lock)
    case Lock => Go(s, t, SetNext).(locks := s.locks[Bucket(c, j) := Held(t)])
    case SetNext => Go(s, t, SetKey).(entries := s.entries[j := s.entries[j].(next := s.table[Bucket(c, j)])])
    case SetKey => Go(s, t, SetVal).(entries := s.entries[j := s.entries[j].(key := c.keys[j])])
    case SetVal => Go(s, t, Publish).(entries := s.entries[j := s.entries[j].(val := t)])
    case Publish =>
      var b := Bucket(c, j);
      Go(s, t, Unlock).(table := s.table[b := j], chains := s.chains[b := [j] + s.chains[b]])
    case Unlock => Go(s, t, Advance).(locks := s.locks[Bucket(c, j) := Free])
    case Advance => s.(threads := s.threads[t := Thread(LoopTest, j + c.threads)])
    case Done => s
  }

  ghost predicate Next(c: Config, s: State, s': State) {
    Shaped(c, s) && exists t: nat :: Enabled(c, s, t) && s' == Step(c, s, t)
  }

  ghost predicate Run(c: Config, run: seq<State>) {
    IsRun((s: State) => Init(c, s), (s: State, s': State) => Next(c, s, s'), run)
  }

  lemma Starts(c: Config, entries: seq<Entry>)
    requires Valid(c) && |entries| == |c.keys|
    ensures Run(c, [State(entries, seq(c.buckets, _ => NULL), seq(c.buckets, _ => Free),
                          seq(c.threads, t requires t >= 0 => Thread(LoopTest, t)), seq(c.buckets, _ => []))])
  {
  }

  predicate AllDone(s: State) { forall t | 0 <= t < |s.threads| :: s.threads[t].pc == Done }

  // ---- The chains -------------------------------------------------------------------------------

  ghost function At(chain: seq<int>, i: nat): int { if i < |chain| then chain[i] else NULL }

  /** The pointers from head run through exactly the entries of the chain. */
  ghost predicate Linked(entries: seq<Entry>, head: int, chain: seq<int>) {
    && head == At(chain, 0)
    && (forall i {:trigger chain[i]} | 0 <= i < |chain| :: 0 <= chain[i] < |entries|)
    && (forall i {:trigger entries[chain[i]]} | 0 <= i < |chain| && 0 <= chain[i] < |entries| ::
          entries[chain[i]].next == At(chain, i + 1))
  }

  predicate InSection(pc: Pc) {
    match pc case SetNext | SetKey | SetVal | Publish | Unlock => true case _ => false
  }

  /** Thread j mod num_threads has linked the entry of index j. */
  predicate Published(c: Config, s: State, j: int)
    requires Shaped(c, s) && c.threads > 0 && j >= 0
  {
    var w := s.threads[j % c.threads];
    j < w.j || (j == w.j && (w.pc == Unlock || w.pc == Advance))
  }

  /** The fields a thread has set so far, and the entry it saw as the head. */
  predicate Building(c: Config, s: State, t: nat)
    requires Shaped(c, s) && t < c.threads
  {
    var w := s.threads[t];
    && c.threads > 0 && w.j % c.threads == t
    && (w.pc == Done ==> w.j >= |c.keys|)
    && (w.pc == SetKey || w.pc == SetVal || w.pc == Publish ==> s.entries[w.j].next == s.table[Bucket(c, w.j)])
    && (w.pc == SetVal || w.pc == Publish ==> s.entries[w.j].key == c.keys[w.j])
    && (w.pc == Publish ==> s.entries[w.j].val == t)
  }

  predicate LockRight(c: Config, s: State, b: int, t: nat)
    requires Shaped(c, s) && 0 <= b < c.buckets && t < c.threads
  {
    s.locks[b] == Held(t) <==> InSection(s.threads[t].pc) && Bucket(c, s.threads[t].j) == b
  }

  /** An entry is in a chain exactly if it has been published and that is the chain of its bucket. */
  ghost predicate Contents(c: Config, s: State, b: int)
    requires Shaped(c, s) && c.threads > 0 && 0 <= b < c.buckets
  {
    && Linked(s.entries, s.table[b], s.chains[b]) && Distinct(s.chains[b])
    && (forall j | 0 <= j < |c.keys| :: j in s.chains[b] <==> Bucket(c, j) == b && Published(c, s, j))
    && (forall j | 0 <= j < |c.keys| && j in s.chains[b] ::
        s.entries[j].key == c.keys[j] && s.entries[j].val == j % c.threads)
  }

  ghost predicate Inv(c: Config, s: State) {
    && Shaped(c, s) && c.threads > 0
    && (forall t: nat | t < c.threads :: Building(c, s, t))
    && (forall b, t: nat | 0 <= b < c.buckets && t < c.threads :: LockRight(c, s, b, t))
    && (forall b | 0 <= b < c.buckets && s.locks[b].Held? :: s.locks[b].thread < c.threads)
    && (forall b | 0 <= b < c.buckets :: Contents(c, s, b))
  }

  lemma Residues(j: nat, k: nat, n: nat)
    requires n > 0
    ensures (j + n) % n == j % n
    ensures k % n == j % n && k < j + n ==> k <= j
  {
    ModShift(j, 1, n);
    if k % n == j % n && j < k {
      SameResidue(j, k, n);
    }
  }

  /** A step publishes at most one entry: the one whose thread stores it in the table. */
  lemma PublishedAfter(c: Config, s: State, t: nat, k: nat)
    requires Shaped(c, s) && t < c.threads && s.threads[t].j % c.threads == t
    requires s.threads[t].pc != Done
    ensures Shaped(c, Step(c, s, t))
    ensures Published(c, Step(c, s, t), k)
        <==> Published(c, s, k) || (s.threads[t].pc == Publish && k == s.threads[t].j)
  {
    Residues(s.threads[t].j, k, c.threads);
  }

  lemma UnpublishedNowhere(c: Config, s: State, t: nat, b: int)
    requires Inv(c, s) && t < c.threads && 0 <= b < c.buckets
    requires match s.threads[t].pc case SetNext | SetKey | SetVal | Publish => true case _ => false
    ensures s.threads[t].j !in s.chains[b]
  {
    assert Building(c, s, t);
    assert Contents(c, s, b);
  }

  lemma ContentsKept(c: Config, s: State, t: nat, b: int)
    requires Inv(c, s) && Enabled(c, s, t) && 0 <= b < c.buckets
    ensures Shaped(c, Step(c, s, t)) && Contents(c, Step(c, s, t), b)
  {
    var s', j := Step(c, s, t), s.threads[t].j;
    assert Building(c, s, t);
    assert Contents(c, s, b);
    forall k: nat ensures Published(c, s', k) <==> Published(c, s, k) || (s.threads[t].pc == Publish && k == j) {
      PublishedAfter(c, s, t, k);
    }
    if s.threads[t].pc == SetNext || s.threads[t].pc == SetKey || s.threads[t].pc == SetVal {
      UnpublishedNowhere(c, s, t, b);
      LinkedElsewhere(s.entries, s.table[b], s.chains[b], j, s'.entries[j]);
    } else if s.threads[t].pc == Publish {
      UnpublishedNowhere(c, s, t, b);
      if b == Bucket(c, j) {
        LinkedFront(s.entries, s.table[b], s.chains[b], j);
      }
    }
  }

  /** Changing an entry that is not in the chain leaves the chain linked. */
  lemma LinkedElsewhere(entries: seq<Entry>, head: int, chain: seq<int>, j: nat, e: Entry)
    requires Linked(entries, head, chain) && j < |entries| && j !in chain
    ensures Linked(entries[j := e], head, chain)
  {
    forall i | 0 <= i < |chain|
      ensures 0 <= chain[i] < |entries| && entries[j := e][chain[i]].next == At(chain, i + 1)
    {
      assert chain[i] != j;
      assert entries[chain[i]].next == At(chain, i + 1);
    }
  }

  /** An entry that points to the head extends the chain. */
  lemma LinkedFront(entries: seq<Entry>, head: int, chain: seq<int>, j: nat)
    requires Linked(entries, head, chain) && j < |entries| && entries[j].next == head && j !in chain
    ensures Linked(entries, j, [j] + chain) && (Distinct(chain) ==> Distinct([j] + chain))
    ensures forall k :: k in [j] + chain <==> k == j || k in chain
  {
    var chain' := [j] + chain;
    forall i | 0 <= i < |chain'| ensures 0 <= chain'[i] < |entries| && entries[chain'[i]].next == At(chain', i + 1) {
      if i > 0 {
        assert chain'[i] == chain[i - 1];
        assert entries[chain[i - 1]].next == At(chain, i);
      }
    }
  }

  lemma LocksKept(c: Config, s: State, t: nat, b: int, u: nat)
    requires Inv(c, s) && Enabled(c, s, t) && 0 <= b < c.buckets && u < c.threads
    ensures Shaped(c, Step(c, s, t)) && LockRight(c, Step(c, s, t), b, u)
  {
    assert LockRight(c, s, b, u) && LockRight(c, s, b, t);
  }

  lemma BuildingKept(c: Config, s: State, t: nat, u: nat)
    requires Inv(c, s) && Enabled(c, s, t) && u < c.threads
    ensures Shaped(c, Step(c, s, t)) && Building(c, Step(c, s, t), u)
  {
    assert Building(c, s, t) && Building(c, s, u);
    Residues(s.threads[t].j, 0, c.threads);
    if s.threads[t].pc == Publish && InSection(s.threads[u].pc) {
      var b := Bucket(c, s.threads[t].j);
      assert LockRight(c, s, b, t) && LockRight(c, s, b, u);
    }
  }

  lemma InvKept(c: Config, s: State, t: nat)
    requires Inv(c, s) && Enabled(c, s, t)
    ensures Inv(c, Step(c, s, t))
  {
    var s' := Step(c, s, t);
    forall u: nat | u < c.threads ensures Shaped(c, s') && Building(c, s', u) {
      BuildingKept(c, s, t, u);
    }
    forall b, u: nat | 0 <= b < c.buckets && u < c.threads ensures LockRight(c, s', b, u) {
      LocksKept(c, s, t, b, u);
    }
    forall b | 0 <= b < c.buckets ensures Contents(c, s', b) {
      ContentsKept(c, s, t, b);
    }
    forall b | 0 <= b < c.buckets && s'.locks[b].Held? ensures s'.locks[b].thread < c.threads {
      assert s.locks[b].Held? ==> s.locks[b].thread < c.threads;
    }
  }

  lemma InitInv(c: Config, s: State)
    requires Valid(c) && Init(c, s)
    ensures Inv(c, s)
  {
    forall t: nat | t < c.threads ensures Building(c, s, t) {
      DivUnique(t, c.threads, 0, t);
    }
    forall j | 0 <= j < |c.keys| ensures !Published(c, s, j) {
      NothingPublished(c, s, j);
    }
    forall b | 0 <= b < c.buckets ensures Contents(c, s, b) {
    }
  }

  lemma NothingPublished(c: Config, s: State, j: int)
    requires Valid(c) && Init(c, s) && 0 <= j < |c.keys|
    ensures !Published(c, s, j)
  {
    assert j % c.threads <= j;
  }

  // ---- Progress -----------------------------------------------------------------------------------

  function Rank(pc: Pc): int {
    match pc
    case LoopTest => 8 case Allocate => 7 case Lock => 6 case SetNext => 5 case SetKey => 4 case SetVal => 3
    case Publish => 2 case Unlock => 1 case Advance => 0 case Done => 0
  }

  function Work(n: nat, w: Thread): int { Rank(w.pc) + 9 * (if w.j < n then n - w.j else 0) }

  ghost predicate Moves(c: Config, s: State) { exists s' :: Next(c, s, s') }

  /** Whoever a thread waits for is inside its section and can go on. */
  lemma NotStuck(c: Config, s: State)
    requires Inv(c, s)
    ensures AllDone(s) || Moves(c, s)
  {
    if !AllDone(s) {
      var t: nat :| t < c.threads && s.threads[t].pc != Done;
      if s.threads[t].pc == Lock && s.locks[Bucket(c, s.threads[t].j)] != Free {
        var b := Bucket(c, s.threads[t].j);
        t := s.locks[b].thread;
        assert LockRight(c, s, b, t);
      }
      assert Next(c, s, Step(c, s, t));
    }
  }

  ghost function Total(c: Config, s: State): int { Sum((w: Thread) => Work(|c.keys|, w), s.threads) }

  lemma WorkDrops(c: Config, s: State, t: nat)
    requires Inv(c, s) && Enabled(c, s, t)
    ensures Total(c, Step(c, s, t)) < Total(c, s)
  {
    SumUpdate((w: Thread) => Work(|c.keys|, w), s.threads, t, Step(c, s, t).threads[t]);
  }

  /** In every state of every run: some thread can move unless all are done, and the run ends. */
  lemma EveryState(c: Config, run: seq<State>, i: nat)
    requires Valid(c) && Run(c, run) && i < |run|
    ensures Inv(c, run[i]) && (AllDone(run[i]) || Moves(c, run[i]))
    ensures i <= Total(c, run[0])
  {
    forall s | Init(c, s) ensures Inv(c, s) {
      InitInv(c, s);
    }
    forall s, s' | Inv(c, s) && Next(c, s, s') ensures Inv(c, s') && Total(c, s') < Total(c, s) {
      var t: nat :| Enabled(c, s, t) && s' == Step(c, s, t);
      InvKept(c, s, t);
      WorkDrops(c, s, t);
    }
    forall s | Inv(c, s) ensures Total(c, s) >= 0 {
      SumNonNegative((w: Thread) => Work(|c.keys|, w), s.threads);
    }
    var init, next := (s: State) => Init(c, s), (s: State, s': State) => Next(c, s, s');
    Invariance(init, next, (s: State) => Inv(c, s), run, i);
    NotStuck(c, run[i]);
    Termination(init, next, (s: State) => Inv(c, s), (s: State) => Total(c, s), run, i);
  }

  /** After all put threads have joined, each index has exactly one entry, with its key and its thread,
      in the chain of its bucket and in no other; every chain is what the pointers run through, and
      ends. */
  lemma AllPut(c: Config, run: seq<State>)
    requires Valid(c) && Run(c, run) && AllDone(run[|run| - 1])
    ensures Complete(c, run[|run| - 1])
  {
    EveryState(c, run, |run| - 1);
    CompleteAtEnd(c, run[|run| - 1]);
  }

  lemma CompleteAtEnd(c: Config, s: State)
    requires Inv(c, s) && AllDone(s)
    ensures Complete(c, s)
  {
    forall j: nat | j < |c.keys| ensures Published(c, s, j) {
      assert Building(c, s, j % c.threads);
    }
    forall b | 0 <= b < c.buckets
      ensures Linked(s.entries, s.table[b], s.chains[b]) && Distinct(s.chains[b])
      ensures forall j | 0 <= j < |c.keys| :: j in s.chains[b] <==> Bucket(c, j) == b
      ensures forall j | 0 <= j < |c.keys| && j in s.chains[b] ::
          s.entries[j].key == c.keys[j] && s.entries[j].val == j % c.threads
    {
      assert Contents(c, s, b);
    }
  }

  ghost predicate Complete(c: Config, s: State) {
    && Shaped(c, s) && c.threads > 0
    && forall b | 0 <= b < c.buckets ::
         && Linked(s.entries, s.table[b], s.chains[b]) && Distinct(s.chains[b])
         && (forall j | 0 <= j < |c.keys| :: j in s.chains[b] <==> Bucket(c, j) == b)
         && (forall j | 0 <= j < |c.keys| && j in s.chains[b] ::
               s.entries[j].key == c.keys[j] && s.entries[j].val == j % c.threads)
  }

  // ---- Looking up --------------------------------------------------------------------------------------

  /** The pointers of every bucket run through its chain and end. */
  ghost predicate Walkable(c: Config, s: State) {
    && Shaped(c, s) && c.threads > 0
    && forall b | 0 <= b < c.buckets :: Linked(s.entries, s.table[b], s.chains[b])
  }

  /** The i-th entry of the bucket of the key is the first one with the key. */
  ghost predicate FirstAt(c: Config, s: State, key: int, i: nat)
    requires Walkable(c, s)
  {
    var chain := s.chains[key % c.buckets];
    && i < |chain| && s.entries[chain[i]].key == key
    && forall k {:trigger chain[k]} | 0 <= k < i :: s.entries[chain[k]].key != key
  }

  ghost predicate Stored(c: Config, s: State, key: int)
    requires Walkable(c, s)
  {
    exists i: nat :: FirstAt(c, s, key, i)
  }

  /** Some entry of the bucket of the key has it. */
  ghost predicate Chained(c: Config, s: State, key: int)
    requires Walkable(c, s)
  {
    exists e | e in s.chains[key % c.buckets] :: s.entries[e].key == key
  }

  lemma StoredIsChained(c: Config, s: State, key: int)
    requires Walkable(c, s)
    ensures Stored(c, s, key) <==> Chained(c, s, key)
  {
    var chain := s.chains[key % c.buckets];
    if i: nat :| FirstAt(c, s, key, i) {
      assert chain[i] in chain;
    }
    if e :| e in chain && s.entries[e].key == key {
      var i: nat :| i < |chain| && chain[i] == e;
      FirstExists(c, s, key, i);
    }
  }

  /** retrieve: the first entry of the bucket's chain with the key, or NULL. */
  method Retrieve(c: Config, s: State, key: int) returns (b: int)
    requires Walkable(c, s) && key >= 0
    ensures b == NULL <==> !Stored(c, s, key)
    ensures b != NULL ==> exists i: nat :: FirstAt(c, s, key, i) && s.chains[key % c.buckets][i] == b
  {
    ghost var chain := s.chains[key % c.buckets];
    ghost var i: nat := 0;
    b := s.table[key % c.buckets];
    while b != NULL
      invariant i <= |chain| && b == At(chain, i)
      invariant forall k {:trigger chain[k]} | 0 <= k < i :: s.entries[chain[k]].key != key
      decreases |chain| - i
    {
      assert chain[i] == b;
      if s.entries[b].key == key {
        assert FirstAt(c, s, key, i);
        return;
      }
      b := s.entries[b].next;
      i := i + 1;
    }
  }

  /** The indices of thread tid from k on whose key no entry of its bucket's chain has. */
  ghost function Lost(c: Config, s: State, tid: nat, k: nat): set<nat>
    requires Walkable(c, s)
  {
    set j: nat | k <= j < |c.keys| && j % c.threads == tid % c.threads && !Chained(c, s, c.keys[j])
  }

  /** get_phase: the number of keys of the thread that are lost. */
  method GetPhase(c: Config, s: State, tid: nat) returns (lost: int)
    requires Walkable(c, s) && Valid(c)
    ensures lost == |Lost(c, s, tid, tid)|
  {
    lost := 0;
    var key := tid;
    while key < |c.keys|
      invariant key % c.threads == tid % c.threads
      invariant lost + |Lost(c, s, tid, key)| == |Lost(c, s, tid, tid)|
      decreases |c.keys| - key
    {
      LostNext(c, s, tid, key);
      StoredIsChained(c, s, c.keys[key]);
      var b := Retrieve(c, s, c.keys[key]);
      if b == NULL {
        lost := lost + 1;
      }
      ModShift(key, 1, c.threads);
      key := key + c.threads;
    }
    assert Lost(c, s, tid, key) == {};
  }

  /** Between two keys of a thread there is none. */
  lemma LostNext(c: Config, s: State, tid: nat, k: nat)
    requires Walkable(c, s) && k < |c.keys| && k % c.threads == tid % c.threads
    ensures |Lost(c, s, tid, k)| == |Lost(c, s, tid, k + c.threads)| + if Chained(c, s, c.keys[k]) then 0 else 1
  {
    var here, rest := if Chained(c, s, c.keys[k]) then {} else {k}, Lost(c, s, tid, k + c.threads);
    forall j: nat ensures j in Lost(c, s, tid, k) <==> j in here || j in rest {
      if k < j < k + c.threads && j % c.threads == k % c.threads {
        SameResidue(k, j, c.threads);
      }
    }
    assert Lost(c, s, tid, k) == here + rest;
  }

  /** A chain that holds the key has a first entry with it. */
  lemma {:induction false} FirstExists(c: Config, s: State, key: int, i: nat)
    requires Walkable(c, s) && i < |s.chains[key % c.buckets]| && s.entries[s.chains[key % c.buckets][i]].key == key
    ensures Stored(c, s, key)
    decreases i
  {
    var chain := s.chains[key % c.buckets];
    if k: nat :| k < i && s.entries[chain[k]].key == key {
      FirstExists(c, s, key, k);
    } else {
      assert FirstAt(c, s, key, i);
    }
  }

  lemma KeyStored(c: Config, s: State, k: nat)
    requires Complete(c, s) && k < |c.keys|
    ensures Stored(c, s, c.keys[k])
  {
    var chain := s.chains[Bucket(c, k)];
    assert k in chain;
    var i: nat :| i < |chain| && chain[i] == k;
    FirstExists(c, s, c.keys[k], i);
  }

  /** After the put phase of any number of threads, in whatever order, no get thread misses a key. */
  lemma NoKeyLost(c: Config, run: seq<State>, tid: nat)
    requires Valid(c) && Run(c, run) && AllDone(run[|run| - 1])
    ensures Walkable(c, run[|run| - 1]) && Lost(c, run[|run| - 1], tid, tid) == {}
  {
    AllPut(c, run);
    forall k: nat | k < |c.keys| ensures Chained(c, run[|run| - 1], c.keys[k]) {
      KeyStored(c, run[|run| - 1], k);
      StoredIsChained(c, run[|run| - 1], c.keys[k]);
    }
  }
}
