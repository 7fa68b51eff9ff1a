/** `boost::locking_queue<T, Container>`: a FIFO queue guarded by a mutex.
    Only its sequential behaviour is modelled here: the backing container is
    the field `container`, a sequence whose front is index 0, and each public
    operation is one atomic step on it.
 */
module Boost {
  import opened Fifo

  class LockingQueue<T> {
    /** The underlying container that stores the queue elements. */
    var container: seq<T>

    /** Constructs a new, empty locking queue. */
    constructor ()
      ensures container == []
      ensures Empty() && Size() == 0
    {
      container := [];
    }

    /** Constructs a locking queue holding a copy of `other`, in the same
        order; `other` itself is a value and is left as it was. */
    constructor FromContainer(other: seq<T>)
      ensures container == other
      ensures Size() == |other|
      ensures other != [] ==> !Empty() && PopFront(container) == Success((other[0], other[1..]))
    {
      container := other;
    }

    /** Whether the queue holds no element; reads the state and changes nothing. */
    function Empty(): (b: bool)
      reads this
      ensures b <==> Size() == 0
      ensures b <==> PopFront(container).Failure?
    {
      container == []
    }

    /** The number of elements in the queue; reads the state and changes nothing. */
    function Size(): (n: nat)
      reads this
      ensures n == 0 <==> container == []
      ensures n == |container|
    {
      |container|
    }

    /** Non-blocking pop, `pop(false, timeout)`. An empty queue fails with
        `QueueEmpty` and is left unchanged; otherwise the front element is
        returned and removed. The timeout plays no part: the result and the
        new contents are determined by the old contents alone. */
    method Pop(timeout: int) returns (r: Result<T>)
      modifies this
      ensures old(container) == [] ==> r == Failure(QueueEmpty) && container == old(container)
      ensures old(container) != [] ==> r == Success(old(container)[0]) && container == old(container)[1..]
      ensures old(container) != [] ==> Size() == old(Size()) - 1
      ensures r.Success? ==> PopFront(old(container)) == Success((r.value, container))
    {
      if container == [] {
        return Failure(QueueEmpty);
      }
      var element := container[0];
      container := container[1..];
      return Success(element);
    }

    /** Pushes `element` to the back of the queue; the earlier elements keep
        their order and the size grows by exactly one. */
    method Push(element: T)
      modifies this
      ensures container == PushBack(old(container), element)
      ensures Size() == old(Size()) + 1 && !Empty()
    {
      container := container + [element];
    }
  }
}
