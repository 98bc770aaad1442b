// The atomic bounded FIFO that the lock-free queue implements and that the
// asynchronous logger is built on. A step may also leave the queue as it is.
module Fifo {

  ghost predicate Put<T>(capacity: nat, q: seq<T>, x: T, q': seq<T>) {
    |q| < capacity && q' == q + [x]
  }

  ghost predicate Get<T>(q: seq<T>, x: T, q': seq<T>) {
    q == [x] + q'
  }

  ghost predicate Next<T(!new)>(capacity: nat, q: seq<T>, q': seq<T>) {
    || q' == q
    || (exists x :: Put(capacity, q, x, q'))
    || (exists x :: Get(q, x, q'))
  }
}
