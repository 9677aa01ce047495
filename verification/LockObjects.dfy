/** The mutable lock objects: weighted semaphores per key, init gates, and the container lock whose
    release depends on whether it has been downgraded. */
module LockObjects {
  import opened Basics
  import opened LockValues

  /** One weighted semaphore of size `MAX` per key. A call that would block for ever is one whose
      context ends first: it reports failure and takes nothing. */
  class KeyedLock {
    var sem: map<Key, int>

    constructor ()
      ensures sem == map[]
    {
      sem := map[];
    }

    function Cur(key: Key): int
      reads this
    {
      At(sem, key)
    }

    method Acquire(key: Key, n: int, cancelled: bool) returns (ok: bool)
      modifies this
      ensures ok <==> !cancelled && MAX - old(Cur(key)) >= n
      ensures key in sem && Cur(key) == old(Cur(key)) + if ok then n else 0
      ensures forall k :: k != key ==> Cur(k) == old(Cur(k)) && (k in sem <==> k in old(sem))
    {
      if key !in sem {
        sem := sem[key := 0];
      }
      ok := !cancelled && MAX - sem[key] >= n;
      if ok {
        sem := sem[key := sem[key] + n];
      }
    }

    method Lock(key: Key, cancelled: bool) returns (ok: bool)
      modifies this
      ensures ok <==> !cancelled && old(Cur(key)) <= 0
      ensures key in sem && Cur(key) == old(Cur(key)) + if ok then MAX else 0
      ensures forall k :: k != key ==> Cur(k) == old(Cur(k)) && (k in sem <==> k in old(sem))
    {
      ok := Acquire(key, MAX, cancelled);
    }

    method RLock(key: Key, cancelled: bool) returns (ok: bool)
      modifies this
      ensures ok <==> !cancelled && old(Cur(key)) < MAX
      ensures key in sem && Cur(key) == old(Cur(key)) + if ok then 1 else 0
      ensures forall k :: k != key ==> Cur(k) == old(Cur(k)) && (k in sem <==> k in old(sem))
    {
      ok := Acquire(key, 1, cancelled);
    }

    /** Giving back more than is held panics, and so does a key that was never locked. */
    method Release(key: Key, n: int)
      requires key in sem && sem[key] >= n
      modifies this
      ensures sem == old(sem)[key := old(sem)[key] - n]
    {
      sem := sem[key := sem[key] - n];
    }

    method Unlock(key: Key)
      requires key in sem && sem[key] >= MAX
      modifies this
      ensures sem == old(sem)[key := old(sem)[key] - MAX]
    {
      Release(key, MAX);
    }

    method Downgrade(key: Key)
      requires key in sem && sem[key] >= MAX
      modifies this
      ensures sem == old(sem)[key := old(sem)[key] - (MAX - 1)]
    {
      Release(key, MAX - 1);
    }

    method RUnlock(key: Key)
      requires key in sem && sem[key] >= 1
      modifies this
      ensures sem == old(sem)[key := old(sem)[key] - 1]
    {
      Release(key, 1);
    }
  }

  /** The init gates: `Do` runs its body once per name until the name is refreshed. */
  class OnceFactory {
    var closed: set<Key>

    constructor ()
      ensures closed == {}
    {
      closed := {};
    }

    method Refresh(name: Key)
      modifies this
      ensures closed == old(closed) - {name}
    {
      closed := closed - {name};
    }
  }

  class ContainerLock {
    const l: KeyedLock
    const once: OnceFactory
    const name: Key
    const init: bool
    const exclusive: bool
    var downgraded: bool

    constructor (l: KeyedLock, once: OnceFactory, name: Key, init: bool, exclusive: bool, downgraded: bool)
      ensures this.l == l && this.once == once && this.name == name
      ensures Value() == LockValues.Lock(init, exclusive, downgraded)
    {
      this.l, this.once, this.name := l, once, name;
      this.init, this.exclusive, this.downgraded := init, exclusive, downgraded;
    }

    function Value(): Lock
      reads this
    {
      LockValues.Lock(init, exclusive, downgraded)
    }

    /** The semaphore still holds the weight of this lock. */
    predicate Live()
      reads this, l
    {
      name in l.sem && l.sem[name] >= Weight(Value())
    }

    method SetInitResult(ok: bool)
      requires Live()
      modifies this, l, once
      ensures Live()
      ensures Value() == WithResult(old(Value()), ok)
      ensures l.sem == old(l.sem)[name := old(l.sem)[name] - (Weight(old(Value())) - Weight(Value()))]
      ensures once.closed == if Reopens(old(Value()), ok) then old(once.closed) - {name} else old(once.closed)
    {
      if init {
        if ok {
          if !exclusive && !downgraded {
            downgraded := true;
            l.Downgrade(name);
          }
        } else {
          once.Refresh(name);
        }
      }
    }

    method Release()
      requires Live()
      modifies l
      ensures l.sem == old(l.sem)[name := old(l.sem)[name] - Weight(Value())]
    {
      if exclusive || !downgraded {
        l.Unlock(name);
      } else {
        l.RUnlock(name);
      }
    }
  }

  // ----- any results, one release

  /** What one call of `SetInitResult` gives back to the semaphore. */
  function GivenBack(l: Lock, ok: bool): int {
    if l.init && ok && !l.exclusive && !l.downgraded then MAX - 1 else 0
  }

  function AfterResults(l: Lock, oks: seq<bool>): Lock {
    if oks == [] then l else WithResult(AfterResults(l, oks[..|oks| - 1]), oks[|oks| - 1])
  }

  function GivenBackBy(l: Lock, oks: seq<bool>): int {
    if oks == [] then 0
    else GivenBackBy(l, oks[..|oks| - 1]) + GivenBack(AfterResults(l, oks[..|oks| - 1]), oks[|oks| - 1])
  }

  /** Whatever results are reported, in whatever order and however often, the results and the one
      release together give back exactly the weight that was taken, and at no point more than it. */
  lemma {:induction false} BalancedRelease(l: Lock, oks: seq<bool>)
    ensures GivenBackBy(l, oks) + Weight(AfterResults(l, oks)) == Weight(l)
    ensures 0 <= GivenBackBy(l, oks) <= Weight(l) - 1
  {
    if oks != [] {
      BalancedRelease(l, oks[..|oks| - 1]);
    }
  }
}
