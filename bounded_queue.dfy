/**
 * The FIFO queue of concurrency/time/time1.go: a buffered channel of capacity
 * n whose non-blocking Put and Get report ErrFull and ErrEmpty instead of
 * waiting. The channel buffer is the sequence `items`, oldest first. A blocking
 * call returns only when it can proceed; here it is called only when it can.
 */
module BoundedQueue {
  import opened GoInts

  /** The error a call returns: nil, ErrFull or ErrEmpty. */
  datatype Error = Nil | ErrFull | ErrEmpty

  class Queue {
    const capacity: nat
    var items: seq<int64>

    /** The buffer never holds more than the capacity. */
    ghost predicate Valid()
      reads this
    {
      |items| <= capacity
    }

    /** MakeQueue: make(chan int, n), which panics for a negative n. */
    constructor MakeQueue(n: int)
      requires n >= 0
      ensures Valid() && capacity == n && items == []
    {
      capacity := n;
      items := [];
    }

    /** Put: the value goes to the back when there is room; a non-blocking
        Put on a full queue reports ErrFull and changes nothing. */
    method Put(val: int64, block: bool) returns (err: Error)
      requires Valid()
      requires block ==> |items| < capacity
      modifies this
      ensures Valid()
      ensures |old(items)| < capacity ==> err == Nil && items == old(items) + [val]
      ensures |old(items)| == capacity ==> err == ErrFull && items == old(items)
    {
      if block {
        items := items + [val];
        return Nil;
      }
      if |items| < capacity {
        items := items + [val];
        err := Nil;
      } else {
        err := ErrFull;
      }
    }

    /** Get: the oldest value leaves the queue; a non-blocking Get on an empty
        queue reports (0, ErrEmpty) and changes nothing. */
    method Get(block: bool) returns (value: int64, err: Error)
      requires Valid()
      requires block ==> |items| > 0
      modifies this
      ensures Valid()
      ensures |old(items)| > 0 ==> value == old(items)[0] && err == Nil && items == old(items)[1..]
      ensures |old(items)| == 0 ==> value == 0 && err == ErrEmpty && items == old(items)
    {
      if block {
        value := items[0];
        items := items[1..];
        return value, Nil;
      }
      if |items| > 0 {
        value := items[0];
        items := items[1..];
        err := Nil;
      } else {
        value, err := 0, ErrEmpty;
      }
    }
  }

  /** main: three non-blocking Puts into a capacity-3 queue succeed; the queue
      is then full, so the final blocking Put(3, true) can never return (its
      precondition fails), and a non-blocking one would report ErrFull. */
  method Example() returns (e1: Error, e2: Error, e3: Error, full: bool)
    ensures e1 == Nil && e2 == Nil && e3 == Nil
    ensures full
  {
    var q := new Queue.MakeQueue(3);
    e1 := q.Put(1, false);
    e2 := q.Put(2, false);
    e3 := q.Put(3, false);
    full := |q.items| == q.capacity;
    var e4 := q.Put(3, false);
    assert e4 == ErrFull;
  }

  /** Values come out in the order they went in, and an emptied queue reports ErrEmpty. */
  method FifoExample() returns (a: int64, b: int64, c: int64, last: Error)
    ensures a == 1 && b == 2 && c == 3
    ensures last == ErrEmpty
  {
    var q := new Queue.MakeQueue(3);
    var _ := q.Put(1, false);
    var _ := q.Put(2, true);
    var _ := q.Put(3, false);
    var e: Error;
    a, e := q.Get(false);
    b, e := q.Get(true);
    c, e := q.Get(false);
    var z: int64;
    z, last := q.Get(false);
  }
}
