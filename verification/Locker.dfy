/** Acquiring the locks of a whole request on the real objects: the lock phase, its rollback, and the
    release of a granted request, run by one goroutine while nobody else moves. An entry keeps its
    container lock by value; the object is made around the value for each call. */
module Lockers {
  import opened Basics
  import opened AcquireQueue
  import opened AcquireControllers
  import opened LockValues
  import opened LockObjects

  datatype Verdict = Granted | Failed | GaveUp

  function Taken(got: Option<Lock>): int {
    if got.None? then 0 else Weight(got.value)
  }

  predicate Wins(mode: Mode, name: Key, was: set<Key>) {
    mode.init && name !in was
  }

  /** The semaphore of `name` has gained exactly the weight of `got` since it had weight `base`. */
  predicate Owns(sem: map<Key, int>, name: Key, got: Option<Lock>, base: int) {
    At(sem, name) == base + Taken(got) && (got.Some? ==> name in sem)
  }

  /** What the lock phase has made of one key: nothing, or a fresh lock in the mode asked for; the
      gate is shut by its winner alone. */
  predicate Took(sem: map<Key, int>, closed: set<Key>, name: Key, mode: Mode, got: Option<Lock>, base: int, was: set<Key>) {
    && Owns(sem, name, got, base)
    && (got.Some? ==> got.value == NewLock(mode, Wins(mode, name, was)))
    && (name in closed <==> name in was || (got.Some? && got.value.init))
  }

  /** The lock function of one key returns an error: its context has ended, or there is no room. */
  predicate Refuses(name: Key, mode: Mode, cancelled: set<Key>, sem: map<Key, int>, closed: set<Key>) {
    name in cancelled || MAX - At(sem, name) < Weight(NewLock(mode, Wins(mode, name, closed)))
  }

  /** Key `k` has the same weight and gate in both. */
  predicate Same(sem: map<Key, int>, closed: set<Key>, sem': map<Key, int>, closed': set<Key>, k: Key) {
    At(sem, k) == At(sem', k) && (k in sem <==> k in sem') && (k in closed <==> k in closed')
  }

  /** The first keys have been tried, with the outcomes `locked`; the others are as they were. */
  ghost predicate TookFirst(names: seq<Key>, modes: seq<Mode>, cancelled: set<Key>, locked: seq<Option<Lock>>,
                            sem: map<Key, int>, was: set<Key>, sem': map<Key, int>, closed: set<Key>)
    requires |locked| <= |names| == |modes|
  {
    && (forall j :: 0 <= j < |locked| ==> Took(sem', closed, names[j], modes[j], locked[j], At(sem, names[j]), was))
    && (forall j :: 0 <= j < |locked| ==> (locked[j].None? <==> Refuses(names[j], modes[j], cancelled, sem, was)))
    && (forall k :: k !in names[..|locked|] ==> Same(sem, was, sem', closed, k))
  }

  lemma TookOne(names: seq<Key>, modes: seq<Mode>, cancelled: set<Key>, locked: seq<Option<Lock>>, got: Option<Lock>,
                sem: map<Key, int>, was: set<Key>, sem': map<Key, int>, was': set<Key>, sem'': map<Key, int>, closed: set<Key>)
    requires |locked| < |names| == |modes| && Distinct(names)
    requires TookFirst(names, modes, cancelled, locked, sem, was, sem', was')
    requires var i := |locked|; Took(sem'', closed, names[i], modes[i], got, At(sem', names[i]), was')
    requires got.None? <==> Refuses(names[|locked|], modes[|locked|], cancelled, sem', was')
    requires forall k :: k != names[|locked|] ==> Same(sem', was', sem'', closed, k)
    ensures TookFirst(names, modes, cancelled, locked + [got], sem, was, sem'', closed)
  {
    var i := |locked|;
    Ahead(names, i);
    assert Same(sem, was, sem', was', names[i]);
    forall j | 0 <= j < i ensures Took(sem'', closed, names[j], modes[j], (locked + [got])[j], At(sem, names[j]), was) {
      assert Took(sem', was', names[j], modes[j], locked[j], At(sem, names[j]), was);
      assert Same(sem', was', sem'', closed, names[j]);
    }
    forall k | k !in names[..i + 1] ensures Same(sem, was, sem'', closed, k) {
      assert Same(sem, was, sem', was', k) && Same(sem', was', sem'', closed, k);
    }
  }

  class Locker {
    const use: KeyedLock
    const once: OnceFactory
    const ctl: AcquireController

    constructor ()
      ensures fresh(use) && fresh(once) && fresh(ctl)
      ensures use.sem == map[] && once.closed == {} && ctl.Valid() && ctl.queue == []
    {
      use := new KeyedLock();
      once := new OnceFactory();
      ctl := new AcquireController();
    }

    /** The lock function of one entry. The gate is entered first; its winner takes the exclusive
        lock inside Do and re-opens the gate if that fails. */
    method LockOne(name: Key, mode: Mode, cancelled: set<Key>) returns (got: Option<Lock>)
      modifies use, once
      ensures Took(use.sem, once.closed, name, mode, got, old(use.Cur(name)), old(once.closed))
      ensures got.None? <==> Refuses(name, mode, cancelled, old(use.sem), old(once.closed))
      ensures forall k :: k != name ==> Same(old(use.sem), old(once.closed), use.sem, once.closed, k)
    {
      if mode.init && name !in once.closed {
        once.closed := once.closed + {name};
        var ok := use.Lock(name, name in cancelled);
        if !ok {
          once.Refresh(name);
          return None;
        }
        return Some(LockValues.Lock(true, mode.exclusive, false));
      }
      var ok;
      if mode.exclusive {
        ok := use.Lock(name, name in cancelled);
      } else {
        ok := use.RLock(name, name in cancelled);
      }
      got := if ok then Some(LockValues.Lock(false, mode.exclusive, !mode.exclusive)) else None;
    }

    /** Releases one lock. */
    method Free(name: Key, lock: Lock)
      requires name in use.sem && use.sem[name] >= Weight(lock)
      modifies use
      ensures use.sem == old(use.sem)[name := old(use.sem)[name] - Weight(lock)]
    {
      var cl := new ContainerLock(use, once, name, lock.init, lock.exclusive, lock.downgraded);
      cl.Release();
    }

    /** One goroutine of the lock phase: the key is locked and reported to the controller, or refused. */
    method TakeKey(name: Key, mode: Mode, cancelled: set<Key>, ticket: nat, ghost before: seq<Entry>, ghost rest: set<Key>)
      returns (got: Option<Lock>)
      requires ctl.Valid() && Lists(ctl.queue, before, ticket, rest) && name in rest
      modifies use, once, ctl`queue
      ensures ctl.Valid() && Lists(ctl.queue, before, ticket, if got.None? then rest else rest - {name})
      ensures Took(use.sem, once.closed, name, mode, got, old(use.Cur(name)), old(once.closed))
      ensures got.None? <==> Refuses(name, mode, cancelled, old(use.sem), old(once.closed))
      ensures forall k :: k != name ==> Same(old(use.sem), old(once.closed), use.sem, once.closed, k)
    {
      got := LockOne(name, mode, cancelled);
      if got.Some? {
        KeyLockedLists(ctl.queue, ctl.next, before, ticket, rest, name);
        ctl.RemoveLockedKey(ticket, name);
      }
    }

    /** The lock phase: every key in turn, whatever happens to the others. */
    method LockPhase(names: seq<Key>, modes: seq<Mode>, cancelled: set<Key>, ticket: nat, ghost before: seq<Entry>)
      returns (locked: seq<Option<Lock>>, ghost rest: set<Key>)
      requires |modes| == |names| && Distinct(names) && ctl.Valid() && Lists(ctl.queue, before, ticket, Elements(names))
      modifies use, once, ctl`queue
      ensures ctl.Valid() && |locked| == |names| && Lists(ctl.queue, before, ticket, rest)
      ensures TookFirst(names, modes, cancelled, locked, old(use.sem), old(once.closed), use.sem, once.closed)
      ensures None !in locked ==> rest == {}
    {
      locked, rest := [], Elements(names);
      ghost var sem, was := use.sem, once.closed;
      for i := 0 to |names|
        invariant |locked| == i && ctl.Valid()
        invariant Lists(ctl.queue, before, ticket, rest) && Elements(names[i..]) <= rest
        invariant None !in locked ==> rest == Elements(names[i..])
        invariant TookFirst(names, modes, cancelled, locked, sem, was, use.sem, once.closed)
      {
        Ahead(names, i);
        ghost var sem', was' := use.sem, once.closed;
        var got := TakeKey(names[i], modes[i], cancelled, ticket, before, rest);
        rest := if got.None? then rest else rest - {names[i]};
        TookOne(names, modes, cancelled, locked, got, sem, was, sem', was', use.sem, once.closed);
        locked := locked + [got];
      }
    }

    /** Rollback, or the release of a granted request: every lock obtained is given back. */
    method ReleaseAll(names: seq<Key>, locked: seq<Option<Lock>>, ghost base: seq<int>)
      requires |names| == |locked| == |base| && Distinct(names)
      requires forall j :: 0 <= j < |names| ==> base[j] >= 0 && Owns(use.sem, names[j], locked[j], base[j])
      modifies use
      ensures forall j :: 0 <= j < |names| ==> use.Cur(names[j]) == base[j]
      ensures forall k :: k !in names ==> use.Cur(k) == old(use.Cur(k))
    {
      ghost var sem := use.sem;
      for i := 0 to |names|
        invariant forall j :: 0 <= j < i ==> At(use.sem, names[j]) == base[j]
        invariant forall j :: i <= j < |names| ==> Owns(use.sem, names[j], locked[j], base[j])
        invariant forall k :: k !in names ==> At(use.sem, k) == At(sem, k)
      {
        if locked[i].Some? {
          assert Owns(use.sem, names[i], locked[i], base[i]);
          Free(names[i], locked[i].value);
        }
      }
    }

    /** Runs the lock phase of a started request and rolls it back if a key was refused. The gates
        won by the locks rolled back stay shut. */
    method LockAll(names: seq<Key>, modes: seq<Mode>, cancelled: set<Key>, ticket: nat, ghost before: seq<Entry>)
      returns (ok: bool, locked: seq<Option<Lock>>)
      requires |modes| == |names| && Distinct(names) && ctl.Valid() && Disciplined(before, ticket)
      requires Lists(ctl.queue, before, ticket, Elements(names))
      requires forall j :: 0 <= j < |names| ==> use.Cur(names[j]) >= 0
      modifies use, once, ctl`queue
      ensures ctl.Valid() && ctl.queue == before && |locked| == |names|
      ensures ok <==> forall j :: 0 <= j < |names| ==> !Refuses(names[j], modes[j], cancelled, old(use.sem), old(once.closed))
      ensures ok ==> None !in locked && TookFirst(names, modes, cancelled, locked, old(use.sem), old(once.closed), use.sem, once.closed)
      ensures !ok ==> forall k :: use.Cur(k) == old(use.Cur(k))
      ensures forall j :: 0 <= j < |names| ==> GateAfter(once.closed, names[j], modes[j], cancelled, old(use.sem), old(once.closed))
      ensures forall k :: k !in names ==> use.Cur(k) == old(use.Cur(k)) && (k in once.closed <==> k in old(once.closed))
    {
      ghost var sem, base := use.sem, Bases(use.sem, names);
      ghost var rest;
      locked, rest := LockPhase(names, modes, cancelled, ticket, before);
      assert names[..|names|] == names;
      assert forall k :: k !in names ==> Same(sem, old(once.closed), use.sem, once.closed, k);
      GatesTaken(names, modes, cancelled, locked, sem, old(once.closed), use.sem, once.closed);
      ok := None !in locked;
      if !ok {
        RemovedLists(ctl.queue, ctl.next, before, ticket, rest);
        ctl.Remove(ticket);
        ReleaseAll(names, locked, base);
        Restored(names, sem, use.sem);
      }
      ExactUnique(ctl.queue, before);
    }

    /** Acquires every key of a request or none. A request in conflict with one in the queue gives up
        (its context ends first) and stays queued; one with a refused key leaves every semaphore and
        the queue as they were, but leaves the gates shut that its other keys won; any other request
        holds a fresh lock in every key and has left the queue. */
    method AcquireContainerLock(names: seq<Key>, modes: seq<Mode>, cancelled: set<Key>)
      returns (v: Verdict, locked: seq<Option<Lock>>)
      requires |modes| == |names| && Distinct(names) && ctl.Valid()
      requires forall j :: 0 <= j < |names| ==> use.Cur(names[j]) >= 0
      modifies use, once, ctl
      ensures ctl.Valid() && ctl.next == old(ctl.next) + 1
      ensures v.GaveUp? <==> !(Elements(names) !! KeysOf(old(ctl.queue)))
      ensures v.Granted? <==>
                && Elements(names) !! KeysOf(old(ctl.queue))
                && forall j :: 0 <= j < |names| ==> !Refuses(names[j], modes[j], cancelled, old(use.sem), old(once.closed))
      ensures ctl.queue == if v.GaveUp? || names == [] then Accepted(old(ctl.queue), old(ctl.next), Elements(names)) else old(ctl.queue)
      ensures v.Granted? ==>
                && |locked| == |names| && None !in locked
                && TookFirst(names, modes, cancelled, locked, old(use.sem), old(once.closed), use.sem, once.closed)
      ensures !v.Granted? ==> forall k :: use.Cur(k) == old(use.Cur(k))
      ensures v.Failed? ==>
                forall j :: 0 <= j < |names| ==> GateAfter(once.closed, names[j], modes[j], cancelled, old(use.sem), old(once.closed))
      ensures v.GaveUp? ==> once.closed == old(once.closed)
      ensures forall k :: k !in names ==> use.Cur(k) == old(use.Cur(k)) && (k in once.closed <==> k in old(once.closed))
    {
      if names == [] {
        var _ := ctl.Accept({});
        return Granted, [];
      }
      ghost var before := ctl.queue;
      assert names[0] in Elements(names);
      AcceptedLists(before, ctl.next, Elements(names));
      AcceptedStarts(before, ctl.next, Elements(names));
      var ticket := ctl.Accept(Elements(names));
      if !Started(ctl.queue, ticket) {
        return GaveUp, [];
      }
      var ok;
      ok, locked := LockAll(names, modes, cancelled, ticket, before);
      v := if ok then Granted else Failed;
    }
  }

  /** The gate of one key after the lock phase: shut by its winner, also if the winner is rolled back. */
  predicate GateAfter(closed: set<Key>, name: Key, mode: Mode, cancelled: set<Key>, sem: map<Key, int>, was: set<Key>) {
    name in closed <==> name in was || (Wins(mode, name, was) && !Refuses(name, mode, cancelled, sem, was))
  }

  lemma GatesTaken(names: seq<Key>, modes: seq<Mode>, cancelled: set<Key>, locked: seq<Option<Lock>>,
                   sem: map<Key, int>, was: set<Key>, sem': map<Key, int>, closed: set<Key>)
    requires |locked| == |names| == |modes| && TookFirst(names, modes, cancelled, locked, sem, was, sem', closed)
    ensures forall j :: 0 <= j < |names| ==> GateAfter(closed, names[j], modes[j], cancelled, sem, was)
    ensures None !in locked <==> forall j :: 0 <= j < |names| ==> !Refuses(names[j], modes[j], cancelled, sem, was)
  {
    forall j | 0 <= j < |names| ensures GateAfter(closed, names[j], modes[j], cancelled, sem, was) {
      assert Took(sem', closed, names[j], modes[j], locked[j], At(sem, names[j]), was);
    }
  }

  ghost function Bases(sem: map<Key, int>, names: seq<Key>): seq<int> {
    seq(|names|, j requires 0 <= j < |names| => At(sem, names[j]))
  }

  lemma Restored(names: seq<Key>, sem: map<Key, int>, sem': map<Key, int>)
    requires forall j :: 0 <= j < |names| ==> At(sem', names[j]) == Bases(sem, names)[j]
    requires forall k :: k !in names ==> At(sem', k) == At(sem, k)
    ensures forall k :: At(sem', k) == At(sem, k)
  {
    forall k ensures At(sem', k) == At(sem, k) {
      if k in names {
        var j :| 0 <= j < |names| && names[j] == k;
        assert At(sem', names[j]) == Bases(sem, names)[j];
      }
    }
  }

  lemma Ahead(names: seq<Key>, i: nat)
    requires Distinct(names) && i < |names|
    ensures names[i] !in names[..i] && names[i] in names && names[i] in Elements(names[i..])
    ensures Elements(names[i + 1..]) == Elements(names[i..]) - {names[i]}
    ensures forall k :: k in names[..i + 1] <==> k in names[..i] || k == names[i]
  {
    assert names[i..] == [names[i]] + names[i + 1..];
    assert names[..i + 1] == names[..i] + [names[i]];
  }

  /** The entries of `before` and behind them, unless its key set is empty, the one of ticket `t`. */
  ghost predicate Lists(q: seq<Entry>, before: seq<Entry>, t: nat, keys: set<Key>) {
    && |q| == |before| + (if keys == {} then 0 else 1)
    && (forall i :: 0 <= i < |before| ==> q[i].ticket == before[i].ticket && q[i].keys == before[i].keys)
    && (keys != {} ==> q[|before|].ticket == t && q[|before|].keys == keys)
  }

  lemma KeyLockedLists(q: seq<Entry>, next: nat, before: seq<Entry>, t: nat, keys: set<Key>, k: Key)
    requires Disciplined(q, next) && Lists(q, before, t, keys) && k in keys
    ensures Lists(KeyLocked(q, t, k), before, t, keys - {k})
  {
    ShrunkAt(q, |before|, k);
    assert |keys - {k}| == |keys| - 1;
    ScheduledEntries(Shrunk(q, t, k));
  }

  lemma RemovedLists(q: seq<Entry>, next: nat, before: seq<Entry>, t: nat, keys: set<Key>)
    requires Disciplined(q, next) && OrderedBelow(before, t) && Lists(q, before, t, keys)
    ensures Lists(Removed(q, t), before, t, {})
  {
    if keys == {} {
      DroppedAbsent(q, t);
    } else {
      DroppedAt(q, |before|);
    }
    ScheduledEntries(Dropped(q, t));
  }

  lemma AcceptedLists(q: seq<Entry>, t: nat, keys: set<Key>)
    requires keys != {}
    ensures Lists(Accepted(q, t, keys), q, t, keys)
  {
    ScheduledEntries(q + [Entry(t, keys, false)]);
  }
}
