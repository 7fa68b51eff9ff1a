# boost::locking_queue in Dafny

This project models the sequential core of `boost::locking_queue<T, Container>`,
a thread-safe FIFO queue that wraps a container (by default `std::queue<T>`) in a
mutex and a condition variable. The model keeps the state that the mutex
protects and the operations on it, each taken as one atomic step:

- `fifo.dfy`, module `Fifo`: the backing container as a sequence whose front
  is index 0, with push-at-the-back and non-blocking pop-from-the-front as
  functions, the `queue_empty` exception as the `Failure(QueueEmpty)` outcome of
  a `Result`, and the FIFO laws for many pushes followed by many pops.
- `locking_queue.dfy`, module `Boost`: class `LockingQueue<T>` with the field
  `container: seq<T>`; the two constructors, the read-only queries `Empty` and
  `Size` (functions that read the object), and the state-changing methods
  `Push` and `Pop` (the non-blocking `pop(false, timeout)`), each specified
  against the old and new contents of `container`.
- `tests.dfy`, module `LockingQueueTests`: the scenarios of `test/tests.cpp`
  and the FIFO and timeout properties as client methods of the class, proved
  from its contracts alone.

## Model

| member | source | states |
|---|---|---|
| `Fifo.PushBack` | src/boost/locking_queue.hpp:144 | pushing onto the container keeps every earlier element in place and order and puts the new element last; the length grows by one |
| `Fifo.PopFront` | src/boost/locking_queue.hpp:126-133 | a non-blocking pop fails with `QueueEmpty` exactly when the container is empty; otherwise front element and remainder put back together give the container again |
| `Fifo.PopFrontAfterPushBack` | src/boost/locking_queue.hpp:132-144 | a pop right after a push yields the pushed element on an empty queue, and otherwise the old front, with the pushed element still last in what is left |
| `Fifo.PushAllAppends` | src/boost/locking_queue.hpp:142-146 | pushing `ps` one element at a time appends `ps`, in order, at the back |
| `Fifo.PopAllTakesPrefix` | src/boost/locking_queue.hpp:126-135 | `n` successive pops succeed iff the queue has at least `n` elements, and then return its first `n` elements in order and leave the rest; otherwise one of them fails with `QueueEmpty` |
| `Fifo.FifoOrder` | src/boost/locking_queue.hpp:132-146 | after pushing `ps` onto a queue holding `q`, popping every element returns `q` followed by `ps` and leaves the queue empty |
| `Fifo.FifoFromEmpty` | src/boost/locking_queue.hpp:132-144 | pushing `p1..pn` onto an empty queue and popping `n` times returns `p1..pn` in that order and leaves the queue empty |
| `Fifo.PopPastEndFails` | src/boost/locking_queue.hpp:127-128 | after pushing `n` elements onto an empty queue, the `n+1`-th pop fails with `QueueEmpty` |
| `Boost.LockingQueue.constructor` | src/boost/locking_queue.hpp:68 | a default-constructed queue is empty and has size 0 |
| `Boost.LockingQueue.FromContainer` | src/boost/locking_queue.hpp:77-78 | a queue constructed from a container holds a copy of it in the same order; its size is the container's, and its front is the container's front |
| `Boost.LockingQueue.Empty` | src/boost/locking_queue.hpp:84-87 | `empty()` is true exactly when `size()` is 0, i.e. exactly when a non-blocking pop would fail; it reads the state and changes nothing |
| `Boost.LockingQueue.Size` | src/boost/locking_queue.hpp:93-96 | `size()` is the number of stored elements, 0 exactly when the container is empty; it reads the state and changes nothing |
| `Boost.LockingQueue.Pop` | src/boost/locking_queue.hpp:112-136 | `pop(false, timeout)` on an empty queue fails with `QueueEmpty` and leaves it unchanged; otherwise returns the old front, leaves exactly the old tail and shrinks the size by one; the timeout plays no part |
| `Boost.LockingQueue.Push` | src/boost/locking_queue.hpp:142-146 | `push(x)` appends `x` at the back, keeps the earlier elements in order, grows the size by exactly one and makes the queue non-empty |
| `LockingQueueTests.BasicFunctionality` | test/tests.cpp:8-24 | on a new queue, pushing 5 and popping returns 5, with empty/size as the test checks before and after |
| `LockingQueueTests.CopyConstructor` | test/tests.cpp:26-38 | a queue constructed from a one-element container has size 1 and pops that element |
| `LockingQueueTests.PopNonBlocking` | test/tests.cpp:40-49 | non-blocking pops on an empty queue fail with `QueueEmpty`, with the default timeout and with timeout 5 |
| `LockingQueueTests.PopTimeoutIgnored` | src/boost/locking_queue.hpp:112-129 | for any contents and any timeout, `pop(false, timeout)` gives the same outcome and leaves the same contents as `pop(false)`; it fails exactly on an empty queue |
| `LockingQueueTests.PushThenDrain` | src/boost/locking_queue.hpp:132-144 | on the queue object, pushing `ps` one at a time and popping until empty returns `ps` in order, and one more pop fails with `QueueEmpty` |

## Left out

- Locking: the `boost::mutex` and the `lock_guard`/`unique_lock` guards (src/boost/locking_queue.hpp:37-42, 85, 94, 113, 143, 157) only serialise the operations; the model takes each operation as one atomic step and has no threads.
- Waking consumers: `non_empty_cond`, `notify_one` in `push`, and `wait`/`timed_wait` with a timeout in seconds (src/boost/locking_queue.hpp:118-123, 145, 162) need a model of threads and of wall-clock time.
- The blocking branch of `pop` (`block == true`, src/boost/locking_queue.hpp:115-125) is not modelled: its meaning depends on other threads. Read literally, its loop waits while the container is NOT empty (line 116), so with a single thread it waits forever (or times out and throws `queue_empty`) on a non-empty queue, and on an empty queue it falls through to `front()`/`pop()` on an empty `std::queue`, which is undefined behaviour; the evident intent is to wait while the queue is empty. The model's `Pop` therefore covers `pop(false, timeout)` only and has no `block` parameter.
- The `Container` template parameter and the `std::queue` adapter internals are abstracted as a sequence with push-back, front and pop-front; `container_type`, `value_type` and `size_type` are the sequence, `T` and `nat`.
- Integer width: `size_type` is an unsigned machine integer; the model uses an unbounded `nat`, since a container large enough to overflow it cannot be allocated.
- The `queue_empty` exception becomes the `Failure(QueueEmpty)` outcome of a `Result`; exception propagation and allocation failure in `push` are not modelled.
