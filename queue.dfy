/**
 * The slice-backed FIFO queue (src/queue/queue.go; queue/queue.go holds the
 * same `Queue` type with the same code). Items are of any type; the queue
 * holds at most MaxCapacity of them. The mutex only serialises callers and
 * is not modelled.
 */
module Queues {
  import opened Basics

  const MinCapacity: int := 1
  const MaxCapacity: int := 2000000

  /** Queue: the slice `q`, front first. */
  class Queue<T> {
    var items: seq<T>

    /** The queue never holds more than MaxCapacity items. */
    ghost predicate Valid()
      reads this
    {
      |items| <= MaxCapacity
    }

    /** CreateQueue: an empty queue. */
    constructor ()
      ensures Valid() && items == []
    {
      items := [];
    }

    /** Insert: appended at the back below MaxCapacity; otherwise "queue is full" and nothing changes. */
    method Insert(item: T) returns (err: Option<Error>)
      requires Valid()
      modifies this
      ensures Valid()
      ensures old(|items|) < MaxCapacity ==> err == None && items == old(items) + [item]
      ensures old(|items|) >= MaxCapacity ==> err == Some(QueueFull) && items == old(items)
    {
      if |items| < MaxCapacity {
        items := items + [item];
        return None;
      }
      return Some(QueueFull);
    }

    /** Remove: the front item, dropped from the queue; on an empty queue nil and "queue is empty". */
    method Remove() returns (item: Option<T>, err: Option<Error>)
      requires Valid()
      modifies this
      ensures Valid()
      ensures old(items) != [] ==> item == Some(old(items)[0]) && err == None && items == old(items)[1..]
      ensures old(items) == [] ==> item == None && err == Some(QueueEmpty) && items == []
    {
      if |items| > 0 {
        item := Some(items[0]);
        items := items[1..];
        return item, None;
      }
      return None, Some(QueueEmpty);
    }

    /** Size: the number of stored items, never above MaxCapacity. */
    function Size(): (n: nat)
      reads this
      ensures n == |items|
      ensures Valid() ==> n <= MaxCapacity
    {
      |items|
    }
  }

  /** A queue filled to MaxCapacity refuses the next item, and stays full. */
  method FullQueueRefuses<T>(q: Queue<T>, item: T) returns (err: Option<Error>)
    requires q.Valid() && q.Size() == MaxCapacity
    modifies q
    ensures err == Some(QueueFull) && q.Size() == MaxCapacity
  {
    err := q.Insert(item);
  }

  /** The insert-then-remove test: the same item comes back and the queue is empty again. */
  method InsertRemoveScenario<T>(x: T) returns (size1: nat, v: Option<T>, err: Option<Error>, size2: nat)
    ensures size1 == 1 && v == Some(x) && err == None && size2 == 0
  {
    var q := new Queue<T>();
    var e := q.Insert(x);
    size1 := q.Size();
    v, err := q.Remove();
    size2 := q.Size();
  }

  /** The two-inserts test: both items are kept, in order. */
  method InsertInsertScenario<T>(x: T, y: T) returns (size: nat, contents: seq<T>)
    ensures size == 2 && contents == [x, y]
  {
    var q := new Queue<T>();
    var e1 := q.Insert(x);
    var e2 := q.Insert(y);
    size := q.Size();
    contents := q.items;
  }

  /** The remove test: four inserts and three removes leave one item, the last one inserted. */
  method FourInThreeOutScenario<T>(a: T, b: T, c: T, d: T) returns (size: nat, out: seq<Option<T>>, front: Option<T>)
    ensures size == 1
    ensures out == [Some(a), Some(b), Some(c)]
    ensures front == Some(d)
  {
    var q := new Queue<T>();
    var e := q.Insert(a);
    e := q.Insert(b);
    e := q.Insert(c);
    e := q.Insert(d);
    var r1, e1 := q.Remove();
    var r2, e2 := q.Remove();
    var r3, e3 := q.Remove();
    out := [r1, r2, r3];
    size := q.Size();
    front, e := q.Remove();
  }

  /** Removing from an empty queue fails and leaves it empty. */
  method EmptyRemoveScenario<T>() returns (v: Option<T>, err: Option<Error>, size: nat)
    ensures v == None && err == Some(QueueEmpty) && size == 0
  {
    var q := new Queue<T>();
    v, err := q.Remove();
    size := q.Size();
  }
}
