/** The fixed-capacity circular FIFO of orders. Push and pop are not
    synchronised themselves: callers hold the queue mutex around them. */
module RingQueue {
  import opened QueueTypes

  /** The logical contents of a ring buffer `b`: `count` slots read from
      `head` onwards, wrapping around the end of `b`. */
  function Window(b: seq<Commande>, head: nat, count: nat): seq<Commande>
    requires head < |b| && count <= |b|
  {
    seq(count, i requires 0 <= i < count => b[(head + i) % |b|])
  }

  /** Below twice the modulus, `%` subtracts the modulus at most once. */
  lemma ModBelowTwice(x: nat, n: nat)
    requires 0 < n && x < 2 * n
    ensures x % n == if x < n then x else x - n
  {
  }

  /** Writing `c` in the slot just past the window extends the window by `c`
      and leaves it otherwise as it was: the slot is not one of the window's. */
  lemma WindowPush(b: seq<Commande>, head: nat, count: nat, c: Commande)
    requires head < |b| && count < |b|
    ensures Window(b[(head + count) % |b| := c], head, count + 1) == Window(b, head, count) + [c]
  {
    var n := |b|;
    var t := (head + count) % n;
    var b' := b[t := c];
    var w, w' := Window(b, head, count), Window(b', head, count + 1);
    ModBelowTwice(head + count, n);
    forall i | 0 <= i < count + 1
      ensures w'[i] == (w + [c])[i]
    {
      ModBelowTwice(head + i, n);
      if i < count {
        assert (head + i) % n != t;
      }
    }
  }

  /** The slot at `head` is the window's first element, and moving `head`
      one slot on (modulo the length) drops exactly that element. */
  lemma WindowPop(b: seq<Commande>, head: nat, count: nat)
    requires head < |b| && 0 < count <= |b|
    ensures Window(b, head, count)[0] == b[head]
    ensures (head + 1) % |b| < |b|
    ensures Window(b, (head + 1) % |b|, count - 1) == Window(b, head, count)[1..]
  {
    var n := |b|;
    var h := (head + 1) % n;
    ModBelowTwice(head, n);
    ModBelowTwice(head + 1, n);
    var w, w' := Window(b, head, count), Window(b, h, count - 1);
    forall i | 0 <= i < count - 1
      ensures w'[i] == w[1..][i]
    {
      ModBelowTwice(h + i, n);
      ModBelowTwice(head + 1 + i, n);
    }
  }

  /** The `Queue` struct: buffer pointer, capacity and three indices, all
      `size_t` and so never negative. */
  class Queue {
    var buf: array?<Commande>
    var cap: nat
    var head: nat
    var tail: nat
    var count: nat

    /** The representation invariant. */
    ghost predicate Valid()
      reads this, buf
    {
      (buf == null ==> cap == 0) &&
      (buf != null ==> buf.Length == cap) &&
      count <= cap &&
      (cap == 0 ==> head == 0 && tail == 0) &&
      (cap > 0 ==> head < cap && tail < cap &&
                   tail == if head + count < cap then head + count else head + count - cap)
    }

    /** The invariant's wrap-around form of `tail` is the C's modular one. */
    lemma TailIsHeadPlusCount()
      requires Valid()
      ensures cap > 0 ==> tail == (head + count) % cap
      ensures cap == 0 ==> head == tail == count == 0
    {
      if cap > 0 {
        ModBelowTwice(head + count, cap);
      }
    }

    /** The orders in the queue, oldest first. */
    ghost function Contents(): (s: seq<Commande>)
      reads this, buf
      requires Valid()
      ensures |s| == count
    {
      if cap == 0 then [] else Window(buf[..], head, count)
    }

    /** A `Queue` of static storage duration before `queue_init`: every
        field zero, no buffer. */
    constructor ()
      ensures Valid() && Contents() == []
      ensures buf == null && cap == 0 && head == 0 && tail == 0 && count == 0
    {
      buf := null;
      cap, head, tail, count := 0, 0, 0, 0;
    }

    /** `queue_init`: allocate `capacity` zeroed slots and empty the queue.
        `allocFails` stands for `calloc` returning NULL; then only the buffer
        pointer is overwritten and -1 is returned. */
    method Init(capacity: nat, allocFails: bool) returns (status: int)
      modifies this
      ensures status == (if allocFails then -1 else 0)
      ensures !allocFails ==>
        fresh(buf) && buf.Length == capacity &&
        cap == capacity && head == 0 && tail == 0 && count == 0 &&
        Valid() && Contents() == [] &&
        forall i :: 0 <= i < capacity ==> buf[i] == ZeroCommande
      ensures allocFails ==>
        buf == null && cap == old(cap) && head == old(head) &&
        tail == old(tail) && count == old(count)
      ensures allocFails ==> (Valid() <==> old(cap) == 0 && old(head) == 0 && old(tail) == 0 && old(count) == 0)
    {
      if allocFails {
        buf := null;
        return -1;
      }
      buf := new Commande[capacity](_ => ZeroCommande);
      cap := capacity;
      head, tail, count := 0, 0, 0;
      return 0;
    }

    /** `queue_destroy`: release the buffer and zero every field. */
    method Destroy()
      modifies this
      ensures buf == null && cap == 0 && head == 0 && tail == 0 && count == 0
      ensures Valid() && Contents() == []
    {
      buf := null;
      cap, head, tail, count := 0, 0, 0, 0;
    }

    /** `queue_push`: append `c` unless the queue is full. The caller is
        meant to hold the queue mutex and a free-slot permit, and then the
        push cannot fail. */
    method Push(c: Commande) returns (status: int)
      requires Valid()
      modifies this`tail, this`count, buf
      ensures Valid()
      ensures status == 0 || status == -1
      ensures status == 0 <==> old(count) < cap
      ensures buf == old(buf) && cap == old(cap) && head == old(head)
      ensures status == -1 ==>
        tail == old(tail) && count == old(count) &&
        (buf != null ==> buf[..] == old(buf[..]))
      ensures status == 0 ==>
        buf != null && buf[..] == old(buf[..])[old(tail) := c] &&
        tail == (old(tail) + 1) % cap && count == old(count) + 1
      ensures Contents() == if status == 0 then old(Contents()) + [c] else old(Contents())
    {
      if count >= cap {
        return -1;
      }
      ghost var b := buf[..];
      ghost var before := Window(b, head, count);
      assert before == Contents();
      ModBelowTwice(head + count, cap);
      WindowPush(b, head, count, c);
      ModBelowTwice(tail + 1, cap);
      buf[tail] := c;
      assert buf[..] == b[tail := c];
      tail := (tail + 1) % cap;
      count := count + 1;
      return 0;
    }

    /** `queue_pop`: remove the oldest order unless the queue is empty.
        `prior` is what the caller's `*out` held before the call; it is
        handed back unchanged when the pop fails. The caller is meant to
        hold the queue mutex and an item permit, and then the pop cannot
        fail. */
    method Pop(prior: Commande) returns (status: int, result: Commande)
      requires Valid()
      modifies this`head, this`count
      ensures Valid()
      ensures status == 0 || status == -1
      ensures status == 0 <==> old(count) != 0
      ensures buf == old(buf) && cap == old(cap) && tail == old(tail)
      ensures status == -1 ==> result == prior && head == old(head) && count == old(count)
      ensures status == 0 ==>
        buf != null && result == buf[old(head)] &&
        head == (old(head) + 1) % cap && count == old(count) - 1
      ensures status == 0 ==> result == old(Contents())[0] && Contents() == old(Contents())[1..]
      ensures status == -1 ==> result == prior && Contents() == old(Contents()) == []
    {
      if count == 0 {
        return -1, prior;
      }
      ghost var b := buf[..];
      ghost var before := Window(b, head, count);
      assert before == Contents();
      WindowPop(b, head, count);
      ModBelowTwice(head + 1, cap);
      result := buf[head];
      head := (head + 1) % cap;
      count := count - 1;
      assert buf[..] == b;
      assert Window(b, head, count) == before[1..];
      return 0, result;
    }
  }

  /** Orders 1, 2, 3 through a queue of capacity 2: the third push is refused
      while two orders wait, succeeds after one pop, and the orders come out
      in the order they went in. */
  method ScenarioInsertionOrder(allocFails: bool)
    returns (initStatus: int, pushStatuses: seq<int>, popped: seq<int32>)
    ensures allocFails ==> initStatus == -1 && pushStatuses == [] && popped == []
    ensures !allocFails ==> initStatus == 0 && pushStatuses == [0, 0, -1, 0] && popped == [1, 2, 3]
  {
    var q := new Queue();
    initStatus := q.Init(2, allocFails);
    if initStatus != 0 {
      return initStatus, [], [];
    }
    var s1 := q.Push(Commande(1, Pizza, 500));
    var s2 := q.Push(Commande(2, Sushi, 700));
    var s3 := q.Push(Commande(3, Salade, 900));
    var p1, c1 := q.Pop(ZeroCommande);
    var s4 := q.Push(Commande(3, Salade, 900));
    var p2, c2 := q.Pop(ZeroCommande);
    var p3, c3 := q.Pop(ZeroCommande);
    pushStatuses := [s1, s2, s3, s4];
    popped := [c1.id, c2.id, c3.id];
  }

  /** A queue of capacity 5 that never saw a real order, with one poison pill
      pushed per cook (three cooks): each cook pops a poison pill, and a
      fourth pop finds the queue empty. */
  method ScenarioPoisonOnly(allocFails: bool)
    returns (initStatus: int, popStatuses: seq<int>, popped: seq<Commande>)
    ensures allocFails ==> initStatus == -1 && popStatuses == [] && popped == []
    ensures !allocFails ==>
      initStatus == 0 && popStatuses == [0, 0, 0, -1] && popped == [Poison, Poison, Poison]
    ensures forall i :: 0 <= i < |popped| ==> IsPoison(popped[i])
  {
    var q := new Queue();
    initStatus := q.Init(5, allocFails);
    if initStatus != 0 {
      return initStatus, [], [];
    }
    var _ := q.Push(Poison);
    var _ := q.Push(Poison);
    var _ := q.Push(Poison);
    var p1, c1 := q.Pop(ZeroCommande);
    var p2, c2 := q.Pop(ZeroCommande);
    var p3, c3 := q.Pop(ZeroCommande);
    var p4, _ := q.Pop(ZeroCommande);
    popStatuses := [p1, p2, p3, p4];
    popped := [c1, c2, c3];
  }

  /** A real order already queued when two poison pills are pushed after it
      comes out first; the pills follow. */
  method ScenarioDrainBeforePoison(allocFails: bool, order: Commande)
    returns (initStatus: int, popped: seq<Commande>)
    requires !IsPoison(order)
    ensures allocFails ==> initStatus == -1 && popped == []
    ensures !allocFails ==> initStatus == 0 && popped == [order, Poison, Poison]
    ensures !allocFails ==> !IsPoison(popped[0]) && IsPoison(popped[1]) && IsPoison(popped[2])
  {
    var q := new Queue();
    initStatus := q.Init(3, allocFails);
    if initStatus != 0 {
      return initStatus, [];
    }
    var _ := q.Push(order);
    var _ := q.Push(Poison);
    var _ := q.Push(Poison);
    var _, c1 := q.Pop(ZeroCommande);
    var _, c2 := q.Pop(ZeroCommande);
    var _, c3 := q.Pop(ZeroCommande);
    popped := [c1, c2, c3];
  }
}
