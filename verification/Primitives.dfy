/** The lock and the counter that the upper layers are built on: what the mutex and the
semaphore refine. */
module Primitives {

  import opened Common

  /** A lock, by its holder. */
  type Lock = Option<Co>

  function Acquired(l: Lock, c: Co): Lock
    requires l.None?
  {
    Some(c)
  }

  /** Only the holder can give a lock back. */
  function Released(l: Lock, c: Co): Lock {
    if l == Some(c) then None else l
  }

  /** A coroutine leaves the lock alone, gets it when it is free, or gives it back. */
  predicate LockStep(l: Lock, l': Lock, c: Co) {
    l' == l || (l.None? && l' == Acquired(l, c)) || (l == Some(c) && l' == Released(l, c))
  }

  function Posted(permits: nat): nat {
    permits + 1
  }

  function Waited(permits: nat): nat
    requires permits > 0
  {
    permits - 1
  }

  /** Permits stay, one is posted, or one is taken. */
  predicate CounterStep(n: nat, n': nat) {
    n' == n || n' == Posted(n) || (n > 0 && n' == Waited(n))
  }
}
