/** The value of one acquired container lock and the semaphore weight it stands for. */
module LockValues {
  import opened Basics

  /** The size of every semaphore: an exclusive lock takes all of it, a shared lock one unit. */
  const MAX: int := 0x7fff_ffff_ffff_ffff

  /** What a request asks for on one key. */
  datatype Mode = Mode(exclusive: bool, init: bool)

  /** `init`: this lock won the init gate. `downgraded`: it holds one unit if it is not exclusive. */
  datatype Lock = Lock(init: bool, exclusive: bool, downgraded: bool)

  /** The lock created on success, by a winner of the init gate or by anyone else. */
  function NewLock(m: Mode, won: bool): Lock {
    if won then Lock(true, m.exclusive, false) else Lock(false, m.exclusive, !m.exclusive)
  }

  /** The weight that `Release` gives back. */
  function Weight(l: Lock): int {
    if l.exclusive || !l.downgraded then MAX else 1
  }

  /** The lock after `SetInitResult(ok)`. */
  function WithResult(l: Lock, ok: bool): Lock {
    if l.init && ok && !l.exclusive then l.(downgraded := true) else l
  }

  /** The weight taken from the semaphore of `k`. */
  function At(sem: map<Key, int>, k: Key): int {
    if k in sem then sem[k] else 0
  }

  /** Whether `SetInitResult(ok)` re-opens the init gate. */
  predicate Reopens(l: Lock, ok: bool) {
    l.init && !ok
  }
}
