/** The backing container of a locking queue: a FIFO sequence with the three
    operations the queue uses on it (push at the back, read the front, pop the
    front). The front of the queue is index 0, the back is the last index.
 */
module Fifo {

  /** The single error kind of a queue: no element was available. */
  datatype PopError = QueueEmpty

  /** The outcome of an operation that either yields a value or fails with `QueueEmpty`. */
  datatype Result<R> = Success(value: R) | Failure(error: PopError)

  /** Pushing appends the element at the back: the old elements keep their
      positions and order, and the new one comes last. */
  function PushBack<T>(q: seq<T>, x: T): (r: seq<T>)
    ensures |r| == |q| + 1
    ensures r[..|q|] == q && r[|q|] == x
  {
    q + [x]
  }

  /** A non-blocking pop: fails on an empty queue, otherwise splits the queue
      into its front element and the rest, which put back together give the
      queue again. */
  function PopFront<T>(q: seq<T>): (r: Result<(T, seq<T>)>)
    ensures r.Failure? <==> q == []
    ensures r.Success? ==> [r.value.0] + r.value.1 == q
  {
    if q == [] then Failure(QueueEmpty) else Success((q[0], q[1..]))
  }

  /** Pushes every element of `ps`, first to last, one at a time. */
  function PushAll<T>(q: seq<T>, ps: seq<T>): seq<T>
    decreases |ps|
  {
    if ps == [] then q else PushAll(PushBack(q, ps[0]), ps[1..])
  }

  /** Performs `n` non-blocking pops in a row; yields the popped elements in
      the order they were popped and the queue left over, or fails as soon as
      one pop fails. */
  function PopAll<T>(q: seq<T>, n: nat): Result<(seq<T>, seq<T>)>
    decreases n
  {
    if n == 0 then Success(([], q))
    else
      match PopFront(q)
      case Failure(e) => Failure(e)
      case Success((x, rest)) =>
        match PopAll(rest, n - 1)
        case Failure(e) => Failure(e)
        case Success((xs, left)) => Success(([x] + xs, left))
  }

  /** Popping right after a push: on an empty queue it yields the pushed
      element; otherwise it yields the old front, and the pushed element
      stays at the back of what is left. */
  lemma PopFrontAfterPushBack<T>(q: seq<T>, x: T)
    ensures PopFront(PushBack(q, x))
         == if q == [] then Success((x, [])) else Success((q[0], PushBack(q[1..], x)))
  {
    if q != [] {
      assert (q + [x])[1..] == q[1..] + [x];
    }
  }

  /** Pushing elements one at a time appends them, in order, at the back. */
  lemma {:induction false} PushAllAppends<T>(q: seq<T>, ps: seq<T>)
    ensures PushAll(q, ps) == q + ps
    decreases |ps|
  {
    if ps != [] {
      PushAllAppends(PushBack(q, ps[0]), ps[1..]);
      assert (q + [ps[0]]) + ps[1..] == q + ps;
    }
  }

  /** `n` pops succeed exactly when the queue holds at least `n` elements, and
      then they yield its first `n` elements in order and leave the rest. */
  lemma {:induction false} PopAllTakesPrefix<T>(q: seq<T>, n: nat)
    ensures PopAll(q, n) == if n <= |q| then Success((q[..n], q[n..])) else Failure(QueueEmpty)
    decreases n
  {
    if n != 0 && q != [] {
      PopAllTakesPrefix(q[1..], n - 1);
      if n <= |q| {
        assert [q[0]] + q[1..][..n - 1] == q[..n];
        assert q[1..][n - 1..] == q[n..];
      }
    }
  }

  /** FIFO order: after pushing `ps` onto a queue holding `q`, popping every
      element yields `q` and then `ps`, and leaves the queue empty. */
  lemma {:induction false} FifoOrder<T>(q: seq<T>, ps: seq<T>)
    ensures PopAll(PushAll(q, ps), |q| + |ps|) == Success((q + ps, []))
  {
    PushAllAppends(q, ps);
    PopAllTakesPrefix(q + ps, |q + ps|);
    assert (q + ps)[..|q + ps|] == q + ps;
  }

  /** FIFO order from an empty queue: pushing `p1..pn` and popping `n` times
      yields `p1..pn` in that order and leaves the queue empty. */
  lemma {:induction false} FifoFromEmpty<T>(ps: seq<T>)
    ensures PopAll(PushAll([], ps), |ps|) == Success((ps, []))
  {
    FifoOrder([], ps);
    assert [] + ps == ps;
  }

  /** A pop beyond the last element fails: after pushing `ps` onto an empty
      queue, the `n+1`-th pop reports `QueueEmpty`. */
  lemma {:induction false} PopPastEndFails<T>(ps: seq<T>)
    ensures PopAll(PushAll([], ps), |ps| + 1) == Failure(QueueEmpty)
  {
    PushAllAppends([], ps);
    PopAllTakesPrefix([] + ps, |ps| + 1);
  }
}
