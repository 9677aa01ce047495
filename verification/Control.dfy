/** The local control: acquire the locks, run the init function of every gate won, and keep or
    withdraw the whole acquisition depending on the first init error. */
module Controls {
  import opened Basics
  import opened AcquireQueue
  import opened LockValues
  import opened LockObjects
  import opened Lockers

  /** The first gate winner whose init fails, or the number of locks if none does. A panicking init
      is a failing one. */
  function FirstFailure(won: seq<bool>, outcome: seq<Option<string>>): (f: nat)
    requires |won| == |outcome|
    ensures f <= |won|
    ensures f < |won| ==> won[f] && outcome[f].Some?
    ensures forall i :: 0 <= i < f ==> won[i] ==> outcome[i].None?
  {
    if won == [] then 0
    else
      var f := FirstFailure(won[..|won| - 1], outcome[..|won| - 1]);
      if f < |won| - 1 then f
      else if won[f] && outcome[f].Some? then f
      else f + 1
  }

  function Inits(locks: seq<Lock>): seq<bool> {
    seq(|locks|, j requires 0 <= j < |locks| => locks[j].init)
  }

  /** How many of the first `n` locks won their gate. */
  function WinsBefore(locks: seq<Lock>, n: nat): nat
    requires n <= |locks|
  {
    if n == 0 then 0 else WinsBefore(locks, n - 1) + if locks[n - 1].init then 1 else 0
  }

  /** The results reported for the first `n` entries, `f` being the first failure. */
  ghost function ReportsOf(names: seq<Key>, locks: seq<Lock>, f: nat, n: nat): seq<(Key, bool)>
    requires n <= |names| == |locks|
  {
    if n == 0 then []
    else ReportsOf(names, locks, f, n - 1) + if locks[n - 1].init then [(names[n - 1], n - 1 < f)] else []
  }

  /** Lock `j` when the first `n` results have been reported, `f` being the first failure. */
  function LockAfter(lock: Lock, j: int, f: int, n: int): Lock {
    if j < n then WithResult(lock, j < f) else lock
  }

  /** One key when the first `n` results have been reported: its semaphore holds its lock, and its
      gate is closed as it was unless the result re-opened it. */
  predicate ReportedAt(sem: map<Key, int>, closed: set<Key>, was: set<Key>, name: Key, lock: Lock, base: int, j: int, f: int, n: int) {
    && Owns(sem, name, Some(LockAfter(lock, j, f, n)), base)
    && (name in closed <==> name in was && !(j < n && Reopens(lock, j < f)))
  }

  ghost predicate Reported(sem: map<Key, int>, closed: set<Key>, was: set<Key>, names: seq<Key>, locks: seq<Lock>, base: seq<int>, f: int, n: int)
    requires |names| == |locks| == |base|
  {
    forall j :: 0 <= j < |names| ==> ReportedAt(sem, closed, was, names[j], locks[j], base[j], j, f, n)
  }

  /** Calls `SetInitResult` on one lock. */
  method Report(lk: Locker, name: Key, lock: Lock, ok: bool) returns (lock': Lock)
    requires name in lk.use.sem && lk.use.sem[name] >= Weight(lock)
    modifies lk.use, lk.once
    ensures lock' == WithResult(lock, ok)
    ensures lk.use.sem == old(lk.use.sem)[name := old(lk.use.sem)[name] - (Weight(lock) - Weight(lock'))]
    ensures lk.once.closed == if Reopens(lock, ok) then old(lk.once.closed) - {name} else old(lk.once.closed)
  {
    var cl := new ContainerLock(lk.use, lk.once, name, lock.init, lock.exclusive, lock.downgraded);
    cl.SetInitResult(ok);
    lock' := cl.Value();
  }

  /** The init loop, for any order of the entries: inits run up to and including the first that
      fails; the gates of those that succeeded stay closed, all later ones re-open. */
  method InitLoop(lk: Locker, names: seq<Key>, locks: seq<Lock>, outcome: seq<Option<string>>, ghost base: seq<int>)
    returns (err: Option<string>, locks': seq<Lock>, ran: nat, ghost reported: seq<(Key, bool)>)
    requires |names| == |locks| == |base| == |outcome| && Distinct(names)
    requires forall j :: 0 <= j < |names| ==> base[j] >= 0 && Owns(lk.use.sem, names[j], Some(locks[j]), base[j])
    modifies lk.use, lk.once
    ensures |locks'| == |locks|
    ensures var f := FirstFailure(Inits(locks), outcome);
            && err == (if f < |names| then outcome[f] else None)
            && ran == WinsBefore(locks, if f < |names| then f + 1 else f)
            && reported == ReportsOf(names, locks, f, |names|)
            && (forall j :: 0 <= j < |names| ==> locks'[j] == WithResult(locks[j], j < f))
            && Reported(lk.use.sem, lk.once.closed, old(lk.once.closed), names, locks, base, f, |names|)
    ensures forall k :: k !in names ==> Same(old(lk.use.sem), old(lk.once.closed), lk.use.sem, lk.once.closed, k)
  {
    ghost var f := FirstFailure(Inits(locks), outcome);
    ghost var sem, was := lk.use.sem, lk.once.closed;
    err, locks', ran, reported := None, locks, 0, [];
    for i := 0 to |names|
      invariant |locks'| == |locks|
      invariant err == if f < i then outcome[f] else None
      invariant ran == WinsBefore(locks, if f < i then f + 1 else i)
      invariant reported == ReportsOf(names, locks, f, i)
      invariant forall j :: 0 <= j < |locks| ==> locks'[j] == LockAfter(locks[j], j, f, i)
      invariant Reported(lk.use.sem, lk.once.closed, was, names, locks, base, f, i)
      invariant forall k :: k !in names ==> Same(sem, was, lk.use.sem, lk.once.closed, k)
    {
      ghost var sem', was' := lk.use.sem, lk.once.closed;
      assert ReportedAt(sem', was', was, names[i], locks[i], base[i], i, f, i);
      assert Inits(locks)[i] == locks[i].init;
      if locks[i].init {
        if err.None? {
          err, ran := outcome[i], ran + 1;
        }
        var lock := Report(lk, names[i], locks'[i], err.None?);
        locks', reported := locks'[i := lock], reported + [(names[i], err.None?)];
      }
      ReportedOne(sem', was', lk.use.sem, lk.once.closed, was, names, locks, base, f, i);
    }
  }

  lemma ReportedOne(sem: map<Key, int>, closed: set<Key>, sem': map<Key, int>, closed': set<Key>, was: set<Key>,
                    names: seq<Key>, locks: seq<Lock>, base: seq<int>, f: int, i: nat)
    requires |names| == |locks| == |base| && Distinct(names) && i < |names|
    requires Reported(sem, closed, was, names, locks, base, f, i)
    requires names[i] in sem &&
             sem' == (if locks[i].init then sem[names[i] := sem[names[i]] - (Weight(locks[i]) - Weight(WithResult(locks[i], i < f)))] else sem)
    requires closed' == if Reopens(locks[i], i < f) then closed - {names[i]} else closed
    ensures Reported(sem', closed', was, names, locks, base, f, i + 1)
  {
    forall j | 0 <= j < |names| ensures ReportedAt(sem', closed', was, names[j], locks[j], base[j], j, f, i + 1) {
      assert ReportedAt(sem, closed, was, names[j], locks[j], base[j], j, f, i);
      assert j != i ==> names[j] != names[i];
    }
  }

  /** The inits of a granted request, and its release if one of them fails. */
  method RunInits(lk: Locker, names: seq<Key>, locks: seq<Lock>, outcome: seq<Option<string>>, ghost base: seq<int>)
    returns (err: Option<string>, locks': seq<Lock>)
    requires |names| == |locks| == |base| == |outcome| && Distinct(names)
    requires forall j :: 0 <= j < |names| ==> base[j] >= 0 && Owns(lk.use.sem, names[j], Some(locks[j]), base[j])
    modifies lk.use, lk.once
    ensures var f := FirstFailure(Inits(locks), outcome);
            && err == (if f < |names| then outcome[f] else None)
            && forall j :: 0 <= j < |names| ==> (names[j] in lk.once.closed <==> names[j] in old(lk.once.closed) && !Reopens(locks[j], j < f))
    ensures err.None? ==>
              && |locks'| == |names|
              && forall j :: 0 <= j < |names| ==>
                   locks'[j] == WithResult(locks[j], true) && lk.use.Cur(names[j]) == base[j] + Weight(locks'[j])
    ensures err.Some? ==> forall j :: 0 <= j < |names| ==> lk.use.Cur(names[j]) == base[j]
    ensures forall k :: k !in names ==> lk.use.Cur(k) == old(lk.use.Cur(k)) && (k in lk.once.closed <==> k in old(lk.once.closed))
  {
    ghost var was, f := lk.once.closed, FirstFailure(Inits(locks), outcome);
    var ran;
    ghost var reported;
    err, locks', ran, reported := InitLoop(lk, names, locks, outcome, base);
    assert forall j :: 0 <= j < |names| ==> ReportedAt(lk.use.sem, lk.once.closed, was, names[j], locks[j], base[j], j, f, |names|);
    if err.Some? {
      lk.ReleaseAll(names, seq(|names|, j requires 0 <= j < |names| => Some(locks'[j])), base);
    }
  }

  datatype UseResult = InUse | LockFailed(v: Verdict) | InitFailed(err: string)

  /** Acquires every key, runs the inits and hands the locks over; or fails with no weight taken.
      `outcome[j]` is the error of the init of `names[j]`, should it run. Once the locks are granted,
      inits run up to and including the first that fails; those that succeeded stay on record in
      their gates, the gates of the failed and the skipped ones are open again. */
  method LockForContainerUse(lk: Locker, names: seq<Key>, modes: seq<Mode>, cancelled: set<Key>, outcome: seq<Option<string>>)
    returns (res: UseResult, locks: seq<Lock>)
    requires |modes| == |names| == |outcome| && Distinct(names) && lk.ctl.Valid()
    requires forall j :: 0 <= j < |names| ==> lk.use.Cur(names[j]) >= 0
    modifies lk.use, lk.once, lk.ctl
    ensures lk.ctl.Valid() && lk.ctl.next == old(lk.ctl.next) + 1
    ensures res != LockFailed(Granted)
    ensures res == LockFailed(GaveUp) <==> !(Elements(names) !! KeysOf(old(lk.ctl.queue)))
    ensures res.InUse? || res.InitFailed? <==>
              && Elements(names) !! KeysOf(old(lk.ctl.queue))
              && forall j :: 0 <= j < |names| ==> !Refuses(names[j], modes[j], cancelled, old(lk.use.sem), old(lk.once.closed))
    ensures lk.ctl.queue == if res == LockFailed(GaveUp) || names == [] then Accepted(old(lk.ctl.queue), old(lk.ctl.next), Elements(names)) else old(lk.ctl.queue)
    ensures res.InUse? || res.InitFailed? ==>
              var f := FirstFailure(Winners(names, modes, old(lk.once.closed)), outcome);
              && (res.InitFailed? <==> f < |names|) && (res.InitFailed? ==> outcome[f] == Some(res.err))
              && (forall j :: 0 <= j < |names| ==>
                    (names[j] in lk.once.closed <==>
                     names[j] in old(lk.once.closed) || (Wins(modes[j], names[j], old(lk.once.closed)) && j < f)))
    ensures res.InUse? ==>
              && |locks| == |names|
              && forall j :: 0 <= j < |names| ==>
                   && locks[j] == WithResult(NewLock(modes[j], Wins(modes[j], names[j], old(lk.once.closed))), true)
                   && lk.use.Cur(names[j]) == At(old(lk.use.sem), names[j]) + if modes[j].exclusive then MAX else 1
    ensures !res.InUse? ==> forall k :: lk.use.Cur(k) == old(lk.use.Cur(k))
    ensures res == LockFailed(Failed) ==>
              forall j :: 0 <= j < |names| ==> GateAfter(lk.once.closed, names[j], modes[j], cancelled, old(lk.use.sem), old(lk.once.closed))
    ensures res == LockFailed(GaveUp) ==> lk.once.closed == old(lk.once.closed)
    ensures forall k :: k !in names ==> lk.use.Cur(k) == old(lk.use.Cur(k)) && (k in lk.once.closed <==> k in old(lk.once.closed))
  {
    ghost var sem, was, base := lk.use.sem, lk.once.closed, Bases(lk.use.sem, names);
    var v, locked := lk.AcquireContainerLock(names, modes, cancelled);
    if !v.Granted? {
      return LockFailed(v), [];
    }
    locks := seq(|names|, j requires 0 <= j < |names| => locked[j].value);
    FreshLocks(names, modes, cancelled, locked, locks, sem, was, lk.use.sem, lk.once.closed);
    var err;
    err, locks := RunInits(lk, names, locks, outcome, base);
    if err.Some? {
      Restored(names, sem, lk.use.sem);
      res := InitFailed(err.value);
    } else {
      res := InUse;
    }
  }

  function Winners(names: seq<Key>, modes: seq<Mode>, was: set<Key>): seq<bool>
    requires |names| == |modes|
  {
    seq(|names|, j requires 0 <= j < |names| => Wins(modes[j], names[j], was))
  }

  /** A granted request holds a fresh lock in every key, and its winners' gates are shut. */
  lemma FreshLocks(names: seq<Key>, modes: seq<Mode>, cancelled: set<Key>, locked: seq<Option<Lock>>, locks: seq<Lock>,
                   sem: map<Key, int>, was: set<Key>, sem': map<Key, int>, mid: set<Key>)
    requires |names| == |modes| == |locked| == |locks| && None !in locked
    requires TookFirst(names, modes, cancelled, locked, sem, was, sem', mid)
    requires forall j :: 0 <= j < |names| ==> locked[j] == Some(locks[j])
    ensures Inits(locks) == Winners(names, modes, was)
    ensures forall j :: 0 <= j < |names| ==>
              && Owns(sem', names[j], Some(locks[j]), Bases(sem, names)[j])
              && locks[j] == NewLock(modes[j], Wins(modes[j], names[j], was))
              && (names[j] in mid <==> names[j] in was || locks[j].init)
    ensures forall k :: k !in names ==> Same(sem, was, sem', mid, k)
  {
    assert names[..|names|] == names;
    forall j | 0 <= j < |names|
      ensures Owns(sem', names[j], Some(locks[j]), Bases(sem, names)[j])
      ensures locks[j] == NewLock(modes[j], Wins(modes[j], names[j], was))
      ensures names[j] in mid <==> names[j] in was || locks[j].init
    {
      assert Took(sem', mid, names[j], modes[j], locked[j], At(sem, names[j]), was);
    }
  }
}
