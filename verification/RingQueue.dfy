/** The spy's ring buffer (spy/include/queue.h) as an object used by one thread at a time. */
module RingQueue {
  import opened ModArith

  class LockFreeQueue<T(0)> {
    const buffer: array<T>
    var head: nat
    var tail: nat

    ghost predicate Valid()
      reads this
    {
      head < buffer.Length && tail < buffer.Length
    }

    /** The items pushed and not yet popped, oldest first. */
    ghost function Contents(): seq<T>
      requires Valid()
      reads this, buffer
    {
      if head <= tail then buffer[head..tail] else buffer[head..] + buffer[..tail]
    }

    constructor (capacity: nat)
      requires capacity > 0
      ensures Valid() && fresh(buffer) && buffer.Length == capacity && Contents() == []
    {
      buffer := new T[capacity];
      head, tail := 0, 0;
    }

    lemma Wrap(i: nat)
      requires i < buffer.Length
      ensures (i + 1) % buffer.Length == if i + 1 == buffer.Length then 0 else i + 1
    {
      if i + 1 == buffer.Length {
        ModUnique(i + 1, buffer.Length, 1, 0);
      } else {
        ModSmall(i + 1, buffer.Length);
      }
    }

    /** One slot always stays empty, so at most capacity - 1 items are held. */
    method Push(item: T) returns (ok: bool)
      requires Valid()
      modifies this`tail, buffer
      ensures Valid()
      ensures ok <==> |old(Contents())| < buffer.Length - 1
      ensures Contents() == if ok then old(Contents()) + [item] else old(Contents())
      ensures !ok ==> buffer[..] == old(buffer[..]) && tail == old(tail)
    {
      Wrap(tail);
      var nextTail := (tail + 1) % buffer.Length;
      if nextTail == head {
        return false;
      }
      buffer[tail] := item;
      tail := nextTail;
      ok := true;
    }

    /** `item` is passed by reference in the source: a failed Pop leaves it as it was. */
    method Pop(into: T) returns (ok: bool, item: T)
      requires Valid()
      modifies this`head
      ensures Valid()
      ensures ok <==> old(Contents()) != []
      ensures ok ==> [item] + Contents() == old(Contents())
      ensures !ok ==> item == into && head == old(head)
    {
      if head == tail {
        return false, into;
      }
      item := buffer[head];
      Wrap(head);
      head := (head + 1) % buffer.Length;
      ok := true;
    }
  }
}
