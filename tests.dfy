/** Sequential clients of `LockingQueue`: the scenarios of test/tests.cpp and
    the FIFO and timeout properties, proved from the class's contracts alone.
 */
module LockingQueueTests {
  import opened Fifo
  import opened Boost

  /** Push one value onto a fresh queue, then pop it back. */
  method BasicFunctionality() returns (ret: int)
    ensures ret == 5
  {
    var lq := new LockingQueue<int>();
    assert lq.Empty() && lq.Size() == 0;
    var value := 5;
    lq.Push(value);
    assert !lq.Empty() && lq.Size() == 1;
    var r := lq.Pop(0);
    ret := r.value;
    assert lq.Empty() && lq.Size() == 0;
  }

  /** A queue built from a container holding one value pops that value. */
  method CopyConstructor() returns (front: int)
    ensures front == 5
  {
    var q: seq<int> := [];
    var lq2 := new LockingQueue<int>.FromContainer(q);
    assert lq2.Empty();
    var value := 5;
    q := PushBack(q, value);
    var lq3 := new LockingQueue<int>.FromContainer(q);
    assert !lq3.Empty() && lq3.Size() == 1;
    var r := lq3.Pop(0);
    front := r.value;
  }

  /** Non-blocking pops on an empty queue fail, with or without a timeout. */
  method PopNonBlocking() returns (r0: Result<int>, r5: Result<int>)
    ensures r0 == Failure(QueueEmpty) && r5 == Failure(QueueEmpty)
  {
    var lq := new LockingQueue<int>();
    r0 := lq.Pop(0);
    r5 := lq.Pop(5);
    assert lq.Empty();
  }

  /** For every contents and every timeout, a non-blocking pop with that
      timeout returns the same outcome and leaves the same contents as one
      with the default timeout of 0. */
  method PopTimeoutIgnored<T>(s: seq<T>, timeout: int)
    returns (r: Result<T>, rest: seq<T>, r0: Result<T>, rest0: seq<T>)
    ensures r == r0 && rest == rest0
    ensures s == [] <==> r == Failure(QueueEmpty)
  {
    var q := new LockingQueue<T>.FromContainer(s);
    r := q.Pop(timeout);
    rest := q.container;
    var q0 := new LockingQueue<T>.FromContainer(s);
    r0 := q0.Pop(0);
    rest0 := q0.container;
  }

  /** FIFO order on the queue object: pushing `ps` one element at a time onto
      a new queue and then popping `|ps|` times yields `ps` in order, and one
      more pop fails because the queue is empty. */
  method PushThenDrain<T>(ps: seq<T>) returns (popped: seq<T>, last: Result<T>)
    ensures popped == ps
    ensures last == Failure(QueueEmpty)
  {
    var lq := new LockingQueue<T>();
    var i := 0;
    while i < |ps|
      invariant 0 <= i <= |ps|
      invariant lq.container == ps[..i]
    {
      lq.Push(ps[i]);
      assert ps[..i + 1] == ps[..i] + [ps[i]];
      i := i + 1;
    }
    assert ps[..i] == ps;
    popped := [];
    while !lq.Empty()
      invariant popped + lq.container == ps
      decreases lq.Size()
    {
      var r := lq.Pop(0);
      popped := popped + [r.value];
    }
    last := lq.Pop(0);
  }
}
