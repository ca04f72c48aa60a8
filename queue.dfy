// The fixed-capacity circular queue of parsed motion commands: a buffer of
// `cap` slots read at `head` and written at `tail`, both advanced modulo
// `cap`, with `count` live elements. A push to a full queue is refused.
module CommandQueue {

  /** The slot `k` places after slot `h` on a ring of `n` slots. */
  function Slot(h: nat, k: nat, n: nat): (r: nat)
    requires h < n && k <= n
    ensures r < n
  {
    if h + k < n then h + k else h + k - n
  }

  /** Slot is the firmware's `(h + k) % n`. */
  lemma SlotIsMod(h: nat, k: nat, n: nat)
    requires h < n && k <= n
    ensures Slot(h, k, n) == (h + k) % n
  {
    var x := h + k;
    assert x == (x / n) * n + x % n;
  }

  class Queue<T(0)> {
    /** The queued items, oldest first. */
    ghost var Contents: seq<T>

    const cap: nat
    const buffer: array<T>
    var head: nat
    var tail: nat
    var count: nat

    /**
     * The ring invariant: both indices are slots of the buffer, the tail is
     * `count` slots after the head, and the live slots, read from the head
     * around the ring, hold Contents.
     */
    ghost predicate Valid()
      reads this, buffer
    {
      && buffer.Length == cap
      && count <= cap
      && |Contents| == count
      && (cap == 0 ==> head == 0 && tail == 0)
      && (cap > 0 ==>
            && head < cap && tail < cap
            && tail == Slot(head, count, cap)
            && forall i :: 0 <= i < count ==> Contents[i] == buffer[Slot(head, i, cap)])
    }

    constructor (capacity: nat)
      ensures Valid() && fresh(buffer)
      ensures cap == capacity && Contents == []
      ensures head == 0 && tail == 0 && count == 0
    {
      cap := capacity;
      buffer := new T[capacity];
      head, tail, count := 0, 0, 0;
      Contents := [];
    }

    /** Appends `item` unless the queue is full; a refused push changes nothing. */
    method Push(item: T) returns (ok: bool)
      requires Valid()
      modifies this, buffer
      ensures Valid()
      ensures ok <==> old(count) < cap
      ensures ok ==> Contents == old(Contents) + [item]
      ensures ok ==> head == old(head) && tail == Slot(old(tail), 1, cap) && count == old(count) + 1
      ensures !ok ==> unchanged(this) && unchanged(buffer)
    {
      if count == cap {
        return false;
      }
      buffer[tail] := item;
      SlotIsMod(tail, 1, cap);
      tail := (tail + 1) % cap;
      count := count + 1;
      Contents := Contents + [item];
      return true;
    }

    /** Removes and returns the oldest item; the firmware never pops an empty queue. */
    method Pop() returns (val: T)
      requires Valid() && Contents != []
      modifies this
      ensures Valid()
      ensures val == old(Contents)[0] && Contents == old(Contents)[1..]
      ensures head == Slot(old(head), 1, cap) && tail == old(tail) && count == old(count) - 1
    {
      val := buffer[head];
      SlotIsMod(head, 1, cap);
      head := (head + 1) % cap;
      count := count - 1;
      Contents := Contents[1..];
      assert forall i :: 0 <= i < count ==> Slot(head, i, cap) == Slot(old(head), i + 1, cap);
    }

    function IsEmpty(): (r: bool)
      reads this, buffer
      requires Valid()
      ensures r <==> Contents == []
    {
      count == 0
    }

    function IsFull(): (r: bool)
      reads this, buffer
      requires Valid()
      ensures r <==> |Contents| == cap
    {
      count == cap
    }

    function Size(): (n: nat)
      reads this, buffer
      requires Valid()
      ensures n == |Contents| <= cap
    {
      count
    }
  }

  /** Items come out in the order they went in, and a full queue refuses a third. */
  method FifoScenario(a: int, b: int, c: int) returns (out: seq<int>)
    ensures out == [a, b, c]
  {
    var q := new Queue<int>(2);
    var ok := q.Push(a);
    assert ok;
    ok := q.Push(b);
    assert ok;
    ok := q.Push(c);
    assert !ok;
    var x := q.Pop();
    out := [x];
    ok := q.Push(c);
    assert ok;
    x := q.Pop();
    out := out + [x];
    x := q.Pop();
    out := out + [x];
    assert q.IsEmpty();
  }
}
