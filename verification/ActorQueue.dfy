/** The cyclic queue of an actor, with one slot kept empty, and the vector that a batch is moved to. */
module ActorQueue {
  import opened Arithmetic

  /** A void pointer: null, or a message. */
  datatype Pointer = Null | Message(value: int)

  class Vector {
    const buf: array<Pointer>
    var tail: nat

    ghost predicate Valid()
      reads this
    {
      tail <= buf.Length
    }

    ghost function Contents(): seq<Pointer>
      reads this, buf
      requires Valid()
    {
      buf[..tail]
    }

    constructor (size: nat)
      ensures Valid() && fresh(buf) && buf.Length == size && Contents() == []
    {
      buf, tail := new Pointer[size](_ => Null), 0;
    }

    method PushBack(data: Pointer) returns (ok: int)
      requires Valid()
      modifies this, buf
      ensures Valid() && ok == if |old(Contents())| == buf.Length then 0 else 1
      ensures Contents() == if ok == 1 then old(Contents()) + [data] else old(Contents())
    {
      if tail == buf.Length {
        return 0;
      }
      buf[tail] := data;
      tail := tail + 1;
      return 1;
    }

    method PopBack() returns (data: Pointer)
      requires Valid()
      modifies this
      ensures Valid() && if old(Contents()) == [] then data == Null && Contents() == []
          else Contents() + [data] == old(Contents())
    {
      if tail == 0 {
        return Null;
      }
      tail := tail - 1;
      return buf[tail];
    }
  }

  /** The k-th slot from front on. */
  function Slot(front: int, k: int, size: int): int { if front + k < size then front + k else front + k - size }

  /** How many elements lie between front and tail. */
  function Size(front: int, tail: int, size: int): int { if tail >= front then tail - front else size - front + tail }

  /** The bounded sequence that a ring stands for. */
  ghost function Queued(buf: seq<Pointer>, front: int, tail: int): (q: seq<Pointer>)
    requires 0 <= front < |buf| && 0 <= tail < |buf|
    ensures |q| == Size(front, tail, |buf|) < |buf|
  {
    seq(Size(front, tail, |buf|), k requires 0 <= k < Size(front, tail, |buf|) => buf[Slot(front, k, |buf|)])
  }

  lemma PutAppends(buf: seq<Pointer>, front: int, tail: int, data: Pointer)
    requires 0 <= front < |buf| && 0 <= tail < |buf| && Size(front, tail, |buf|) < |buf| - 1
    ensures Queued(buf[tail := data], front, Slot(tail, 1, |buf|)) == Queued(buf, front, tail) + [data]
  {
  }

  lemma TakeDrops(buf: seq<Pointer>, front: int, tail: int)
    requires 0 <= front < |buf| && 0 <= tail < |buf| && front != tail
    ensures [buf[front]] + Queued(buf[front := Null], Slot(front, 1, |buf|), tail) == Queued(buf, front, tail)
  {
    var q, r := Queued(buf, front, tail), Queued(buf[front := Null], Slot(front, 1, |buf|), tail);
    forall k | 0 <= k < |r| ensures r[k] == q[k + 1] {
    }
  }

  /** Slot k lies outside the ring from front to tail. */
  predicate Unused(front: int, tail: int, k: int) {
    if tail >= front then k < front || k >= tail else tail <= k < front
  }

  class Queue {
    var front: int
    var tail: int
    const buf: array<Pointer>

    /** The slots that hold no element are null. */
    ghost predicate Valid()
      reads this, buf
    {
      && 0 <= front < buf.Length && 0 <= tail < buf.Length
      && forall k | 0 <= k < buf.Length && Unused(front, tail, k) :: buf[k] == Null
    }

    ghost function Contents(): seq<Pointer>
      requires Valid()
      reads this, buf
    {
      Queued(buf[..], front, tail)
    }

    constructor (capacity: nat)
      ensures Valid() && fresh(buf) && buf.Length == capacity + 1 && Contents() == []
    {
      front, tail := 0, 0;
      buf := new Pointer[capacity + 1](_ => Null);
    }

    method QueueSize() returns (n: nat)
      requires Valid()
      ensures n == |Contents()|
    {
      return if tail >= front then tail - front else buf.Length - front + tail;
    }

    method IsFull() returns (full: bool)
      requires Valid()
      ensures full <==> |Contents()| == buf.Length - 1
    {
      WrapsOnce(tail, 1, buf.Length);
      return (tail + 1) % buf.Length == front;
    }

    method IsEmpty() returns (empty: bool)
      requires Valid()
      ensures empty <==> Contents() == []
    {
      return front == tail;
    }

    /** Appends to a queue that is not full; drops the data otherwise. */
    method Enqueue(data: Pointer) returns (ok: int)
      requires Valid()
      modifies this, buf
      ensures Valid() && ok == if |old(Contents())| == buf.Length - 1 then 0 else 1
      ensures Contents() == if ok == 1 then old(Contents()) + [data] else old(Contents())
    {
      var full := IsFull();
      if full {
        return 0;
      }
      WrapsOnce(tail, 1, buf.Length);
      PutAppends(buf[..], front, tail, data);
      buf[tail] := data;
      tail := (tail + 1) % buf.Length;
      return 1;
    }

    /** The oldest element, or null. */
    method Dequeue() returns (data: Pointer)
      requires Valid()
      modifies this, buf
      ensures Valid() && if old(Contents()) == [] then data == Null && Contents() == []
          else [data] + Contents() == old(Contents())
    {
      var empty := IsEmpty();
      if empty {
        return Null;
      }
      WrapsOnce(front, 1, buf.Length);
      TakeDrops(buf[..], front, tail);
      data := buf[front];
      buf[front] := Null;
      front := (front + 1) % buf.Length;
    }

    /** Moves everything up to the first null to a vector that is exactly large enough, in order. */
    method DequeueAll() returns (v: Vector)
      requires Valid()
      modifies this, buf
      ensures Valid() && v.Valid() && fresh(v) && fresh(v.buf)
      ensures v.Contents() == UpToNull(old(Contents()))
      ensures Contents() == AfterNull(old(Contents()))
    {
      ghost var was := Contents();
      var s := QueueSize();
      v := new Vector(s);
      var data := Dequeue();
      ghost var moved, rest := [], Contents();
      UnloadFirst(was, data, rest);
      while data != Null
        invariant Valid() && v.Valid() && fresh(v) && fresh(v.buf) && v.buf.Length == |was|
        invariant moved == v.Contents() && rest == Contents() && Unloading(was, moved, data, rest)
        decreases |was| - |moved|
      {
        var ok := v.PushBack(data);
        if ok == 0 {
          assert false;
        }
        UnloadNext(was, moved, data, rest);
        moved := moved + [data];
        data := Dequeue();
        rest := Contents();
      }
    }
  }

  function UpToNull(q: seq<Pointer>): seq<Pointer> { if q == [] || q[0] == Null then [] else [q[0]] + UpToNull(q[1..]) }

  function AfterNull(q: seq<Pointer>): seq<Pointer> {
    if q == [] then [] else if q[0] == Null then q[1..] else AfterNull(q[1..])
  }

  /** Half-way through a batch: moved is done, data is on its way and rest is still queued. */
  ghost predicate Unloading(was: seq<Pointer>, moved: seq<Pointer>, data: Pointer, rest: seq<Pointer>) {
    && |moved| <= |was| && (data != Null ==> |moved| + 1 + |rest| == |was|)
    && UpToNull(was) == moved + (if data == Null then [] else [data] + UpToNull(rest))
    && AfterNull(was) == if data == Null then rest else AfterNull(rest)
  }

  lemma UnloadFirst(was: seq<Pointer>, data: Pointer, rest: seq<Pointer>)
    requires if was == [] then data == Null && rest == [] else [data] + rest == was
    ensures Unloading(was, [], data, rest)
  {
    if was != [] {
      assert was[0] == data && was[1..] == rest;
    }
  }

  lemma UnloadNext(was: seq<Pointer>, moved: seq<Pointer>, data: Pointer, rest: seq<Pointer>)
    requires Unloading(was, moved, data, rest) && data != Null
    ensures rest == [] ==> Unloading(was, moved + [data], Null, [])
    ensures rest != [] ==> Unloading(was, moved + [data], rest[0], rest[1..])
  {
  }

  /** Without nulls in the queue, a batch is the whole queue and nothing stays behind. */
  lemma {:induction false} NoNulls(q: seq<Pointer>)
    requires Null !in q
    ensures UpToNull(q) == q && AfterNull(q) == []
  {
    if q != [] {
      NoNulls(q[1..]);
    }
  }
}
