/** Safety of whole runs: mutual exclusion, acceptance order, one init per name, atomic downgrade and
    all-or-nothing acquisition, for every interleaving, cancellation and failure. */
module ProtocolRuns {
  import opened Basics
  import opened LockValues
  import opened Protocol
  import opened ProtocolQueue
  import opened ProtocolSafety

  // ----- reader/writer safety

  /** Two live locks on one key are both shared, each of one unit; so an exclusive lock, and the
      lock of a gate winner until its init has succeeded, is alone. */
  lemma ReaderWriterSafety(r: Run, i: nat, t: nat, u: nat, k: Key)
    requires FromStart(r) && i <= |r.steps|
    requires var s := r.states[i];
             t < |s.reqs| && u < |s.reqs| && t != u && HeldWeight(s.reqs[t], k) > 0 && HeldWeight(s.reqs[u], k) > 0
    ensures var s := r.states[i];
            !s.reqs[t].states[k].lock.exclusive && s.reqs[t].states[k].lock.downgraded && HeldWeight(s.reqs[t], k) == 1
  {
    Reachable(r, i);
    TotalAtLeast(r.states[i].reqs, k);
    assert Cur(r.states[i], k) == Total(r.states[i].reqs, k) <= MAX;
  }

  /** A release finds the semaphore it was taken from and at least the weight it gives back. */
  lemma NoOverRelease(r: Run, i: nat)
    requires FromStart(r) && i < |r.steps|
    ensures var s, a := r.states[i], r.steps[i];
            a.Unlock? ==> a.k in s.sem && Weight(s.reqs[a.t].states[a.k].lock) <= s.sem[a.k] <= MAX
    ensures var s, a := r.states[i], r.steps[i];
            a.EndInit? ==> a.k in s.sem && s.sem[a.k] == MAX
  {
    var s, a := r.states[i], r.steps[i];
    Reachable(r, i);
    if a.Unlock? || a.EndInit? {
      TotalAtLeast(s.reqs, a.k);
      assert Cur(s, a.k) == Total(s.reqs, a.k) <= MAX;
      assert HeldWeight(s.reqs[a.t], a.k) <= Cur(s, a.k);
    }
  }

  lemma {:induction false} TotalOfReaders(reqs: seq<Request>, t: nat, k: Key)
    requires t < |reqs| && HeldWeight(reqs[t], k) == 0
    requires forall u :: 0 <= u < |reqs| ==> HeldWeight(reqs[u], k) <= 1
    ensures Total(reqs, k) <= |reqs| - 1
  {
    var n := |reqs| - 1;
    if t < n {
      TotalOfReaders(reqs[..n], t, k);
    } else {
      TotalAtMostOne(reqs[..n], k);
    }
  }

  lemma {:induction false} TotalAtMostOne(reqs: seq<Request>, k: Key)
    requires forall u :: 0 <= u < |reqs| ==> HeldWeight(reqs[u], k) <= 1
    ensures Total(reqs, k) <= |reqs|
  {
    if reqs != [] {
      TotalAtMostOne(reqs[..|reqs| - 1], k);
    }
  }

  /** Exactly when the semaphore lets a waiting request in: for an exclusive lock and for the winner of
      an init gate when nobody holds the key, for a shared lock when every holder is a reader. */
  lemma GrantExactly(r: Run, i: nat, t: nat, k: Key)
    requires FromStart(r) && i <= |r.steps| && |r.states[i].reqs| <= MAX && Is(r.states[i], t, k, Locking)
    requires r.states[i].reqs[t].states[k].Winning? || r.states[i].reqs[t].states[k].Passing?
    ensures var s := r.states[i];
            Enabled(s, Grant(t, k)) <==>
            if s.reqs[t].modes[k].exclusive || s.reqs[t].states[k].Winning?
            then forall u :: 0 <= u < |s.reqs| ==> HeldWeight(s.reqs[u], k) == 0
            else forall u :: 0 <= u < |s.reqs| ==> HeldWeight(s.reqs[u], k) <= 1
  {
    var s := r.states[i];
    Reachable(r, i);
    TotalAtLeast(s.reqs, k);
    assert Cur(s, k) == Total(s.reqs, k) <= MAX;
    if forall u :: 0 <= u < |s.reqs| ==> HeldWeight(s.reqs[u], k) == 0 {
      TotalZero(s.reqs, k);
    } else if forall u :: 0 <= u < |s.reqs| ==> HeldWeight(s.reqs[u], k) <= 1 {
      TotalOfReaders(s.reqs, t, k);
    }
  }

  // ----- no overtaking

  /** The request has an unfinished lock goroutine for `k`. */
  predicate InLockPhase(r: Request, k: Key) {
    r.phase.Locking? && k in Pending(r)
  }

  /** At most one request is in the lock phase of a key: the semaphore has at most one waiter. */
  lemma OneLocker(s: State, t: nat, u: nat, k: Key)
    requires Inv(s) && t < |s.reqs| && u < |s.reqs|
    requires InLockPhase(s.reqs[t], k) && InLockPhase(s.reqs[u], k)
    ensures t == u
  {
    assert Shaped(s.reqs[t]) && Shaped(s.reqs[u]);
    assert k in s.reqs[t].modes && k in s.reqs[u].modes;
  }

  /** Nobody reaches the gate of a key while the body of its Do is running. */
  lemma GateUncontended(s: State, t: nat, k: Key)
    requires Inv(s) && t < |s.reqs| && s.reqs[t].phase.Locking? && k in s.reqs[t].states && s.reqs[t].states[k].AtGate?
    ensures !GateBusy(s, k)
  {
    if GateBusy(s, k) {
      var o :| 0 <= o < |s.reqs| && k in s.reqs[o].states && s.reqs[o].states[k].Winning?;
      assert KeyFits(s.reqs[o].phase, s.reqs[o].modes[k], s.reqs[o].states[k]);
      OneLocker(s, t, o, k);
    }
  }

  /** A holder that stands in the way of a lock goroutine was accepted before it. */
  lemma HoldersAreEarlier(s: State, t: nat, u: nat, k: Key)
    requires Inv(s) && t < |s.reqs| && u < |s.reqs| && t != u
    requires InLockPhase(s.reqs[t], k) && HeldWeight(s.reqs[u], k) > 0
    ensures u < t
  {
    assert KeyFits(s.reqs[u].phase, s.reqs[u].modes[k], s.reqs[u].states[k]);
    assert Began(s.reqs[u]);
  }

  // ----- what only grows along a run

  /** The request has obtained `k` at some time. */
  predicate Acquired(r: Request, k: Key) {
    k in r.states && (r.states[k].Locked? || r.states[k].Held? || r.states[k].Freed?)
  }

  ghost predicate RequestGrows(r: Request, r': Request) {
    && r'.modes == r.modes
    && (Began(r) ==> Began(r'))
    && Pending(r') <= Pending(r)
    && (forall k :: Acquired(r, k) ==> Acquired(r', k))
    && (forall k :: k in r.states && r.states[k].Freed? ==> k in r'.states && r'.states[k].Freed?)
  }

  ghost predicate Grows(s: State, s': State) {
    && |s.reqs| <= |s'.reqs|
    && (forall t :: 0 <= t < |s.reqs| ==> RequestGrows(s.reqs[t], s'.reqs[t]))
    && s.succeeded <= s'.succeeded && s.failed <= s'.failed && s.leaked <= s'.leaked
  }

  lemma StepGrows(s: State, a: Step)
    requires ShapeOk(s) && Enabled(s, a)
    ensures Grows(s, Apply(s, a))
  {
    HistoryGrows(s, a);
    if !a.Accept? {
      OneMover(s, a);
      MoverGrows(s, a);
    }
  }

  lemma HistoryGrows(s: State, a: Step)
    requires Enabled(s, a)
    ensures var s' := Apply(s, a);
            |s.reqs| <= |s'.reqs| && s.succeeded <= s'.succeeded && s.failed <= s'.failed && s.leaked <= s'.leaked
  {
  }

  lemma MoverGrows(s: State, a: Step)
    requires Enabled(s, a) && !a.Accept? && Shaped(s.reqs[a.t])
    ensures a.t < |Apply(s, a).reqs| && RequestGrows(s.reqs[a.t], Apply(s, a).reqs[a.t])
  {
    OneMover(s, a);
    MoverAcquires(s, a);
  }

  lemma MoverAcquires(s: State, a: Step)
    requires Enabled(s, a) && !a.Accept? && Shaped(s.reqs[a.t])
    ensures var r, r' := s.reqs[a.t], Apply(s, a).reqs[a.t];
            && (forall k :: Acquired(r, k) ==> Acquired(r', k))
            && (forall k :: k in r.states && r.states[k].Freed? ==> k in r'.states && r'.states[k].Freed?)
  {
  }

  lemma GrowsTrans(s: State, s': State, s'': State)
    requires Grows(s, s') && Grows(s', s'')
    ensures Grows(s, s'')
  {
    forall t | 0 <= t < |s.reqs| ensures RequestGrows(s.reqs[t], s''.reqs[t]) {
      assert RequestGrows(s.reqs[t], s'.reqs[t]) && RequestGrows(s'.reqs[t], s''.reqs[t]);
    }
  }

  lemma {:induction false} RunGrows(r: Run, i: nat, j: nat)
    requires FromStart(r) && i <= j <= |r.steps|
    ensures Grows(r.states[i], r.states[j])
    decreases j - i
  {
    if i < j {
      RunGrows(r, i, j - 1);
      Reachable(r, j - 1);
      StepGrows(r.states[j - 1], r.steps[j - 1]);
      assert StepAt(r, j - 1);
      GrowsTrans(r.states[i], r.states[j - 1], r.states[j]);
    }
  }

  /** Requests obtain a key in the order in which they were accepted, each at most once. */
  lemma GrantedInOrder(r: Run, i: nat, j: nat)
    requires FromStart(r) && i < j < |r.steps|
    requires r.steps[i].Grant? && r.steps[j].Grant? && r.steps[i].k == r.steps[j].k
    ensures r.steps[i].t < r.steps[j].t
  {
    var t, u, k := r.steps[i].t, r.steps[j].t, r.steps[i].k;
    var s := r.states[j];
    assert StepAt(r, i);
    RunGrows(r, i + 1, j);
    Reachable(r, i);
    Reachable(r, j);
    assert RequestGrows(r.states[i + 1].reqs[t], s.reqs[t]);
    assert Acquired(s.reqs[t], k) && Began(s.reqs[t]) && k in s.reqs[t].modes;
    assert k in Pending(s.reqs[u]);
  }

  // ----- init at most once

  /** In every state a name has at most one init in progress, and its lock is the only one. */
  lemma OneInitAtATime(r: Run, i: nat, t: nat, u: nat, k: Key)
    requires FromStart(r) && i <= |r.steps|
    requires var s := r.states[i]; t < |s.reqs| && u < |s.reqs| && RunningOn(s.reqs[t], k) && t != u
    ensures var s := r.states[i]; !RunningOn(s.reqs[u], k) && HeldWeight(s.reqs[u], k) == 0
  {
    var s := r.states[i];
    Reachable(r, i);
    assert KeyFits(s.reqs[t].phase, s.reqs[t].modes[k], s.reqs[t].states[k]);
    assert HeldWeight(s.reqs[t], k) == MAX;
    TotalAtLeast(s.reqs, k);
    assert Cur(s, k) == Total(s.reqs, k) <= MAX;
  }

  /** After a successful init of `k` no init of `k` starts or ends, whatever is cancelled or fails. */
  lemma InitSucceedsOnce(r: Run, i: nat, j: nat)
    requires FromStart(r) && i < j < |r.steps| && r.steps[i].EndInit? && r.steps[i].ok
    ensures !(r.steps[j].StartInit? && r.steps[j].k == r.steps[i].k)
    ensures !(r.steps[j].EndInit? && r.steps[j].k == r.steps[i].k)
    ensures !(r.steps[j].SkipInit? && r.steps[j].k == r.steps[i].k)
  {
    var k, s := r.steps[i].k, r.states[j];
    assert StepAt(r, i);
    RunGrows(r, i + 1, j);
    Reachable(r, j);
    assert k in s.succeeded && GateOkAt(s, k);
    var a := r.steps[j];
    if (a.StartInit? || a.EndInit? || a.SkipInit?) && a.k == k {
      assert KeyFits(s.reqs[a.t].phase, s.reqs[a.t].modes[k], s.reqs[a.t].states[k]);
      assert LiveWinner(s.reqs[a.t], k);
    }
  }

  // ----- atomic downgrade

  /** While the winner of a gate holds its lock, another request is granted the key only after the
      winner's init has succeeded, and then only in shared mode: the winner is alone throughout its
      init and passes to shared mode with no instant at which an exclusive lock could be taken. */
  lemma AtomicDowngrade(r: Run, i: nat, j: nat) returns (e: nat)
    requires FromStart(r) && i < j < |r.steps|
    requires r.steps[i].Grant? && r.states[i].reqs[r.steps[i].t].states[r.steps[i].k].Winning?
    requires r.steps[j].Grant? && r.steps[j].k == r.steps[i].k
    requires forall m :: i < m < j ==> r.steps[m] != Unlock(r.steps[i].t, r.steps[i].k)
    ensures i < e < j && r.steps[e] == EndInit(r.steps[i].t, r.steps[i].k, true)
    ensures var s := r.states[j];
            && Weight(Wanted(s.reqs[r.steps[j].t], r.steps[i].k)) == 1
            && r.steps[i].t < |s.reqs| && HeldWeight(s.reqs[r.steps[i].t], r.steps[i].k) == 1
  {
    var t, k := r.steps[i].t, r.steps[i].k;
    GrantHolds(r, i);
    e := HoldsUntil(r, i + 1, j, t, k);
    Reachable(r, j);
    GrantBeside(r.states[j], t, r.steps[j].t, k);
  }

  lemma GrantHolds(r: Run, i: nat)
    requires FromStart(r) && i < |r.steps|
    requires r.steps[i].Grant? && r.states[i].reqs[r.steps[i].t].states[r.steps[i].k].Winning?
    ensures Holding(r.states[i + 1], r.steps[i].t, r.steps[i].k)
  {
    assert StepAt(r, i);
  }

  lemma GrantBeside(s: State, t: nat, u: nat, k: Key)
    requires Inv(s) && t < |s.reqs| && HeldWeight(s.reqs[t], k) > 0 && Enabled(s, Grant(u, k))
    ensures HeldWeight(s.reqs[t], k) == 1 && Weight(Wanted(s.reqs[u], k)) == 1 && !Holding(s, t, k)
  {
    TotalAtLeast(s.reqs, k);
    assert Cur(s, k) == Total(s.reqs, k) <= MAX;
  }

  /** Request `t` holds `k` as a gate winner that is not downgraded. */
  predicate Holding(s: State, t: nat, k: Key) {
    && t < |s.reqs| && k in s.reqs[t].states
    && (s.reqs[t].states[k].Locked? || s.reqs[t].states[k].Held?)
    && s.reqs[t].states[k].lock.init && !s.reqs[t].states[k].lock.downgraded
  }

  lemma {:induction false} HoldsUntil(r: Run, i: nat, j: nat, t: nat, k: Key) returns (e: nat)
    requires FromStart(r) && i <= j <= |r.steps|
    requires Holding(r.states[i], t, k)
    requires forall m :: i <= m < j ==> r.steps[m] != Unlock(t, k)
    ensures t < |r.states[j].reqs| && HeldWeight(r.states[j].reqs[t], k) > 0
    ensures (i <= e < j && r.steps[e] == EndInit(t, k, true)) || (e == j && Holding(r.states[j], t, k))
    decreases j - i
  {
    if i == j {
      e := j;
    } else {
      e := HoldsUntil(r, i, j - 1, t, k);
      HoldStepAt(r, j - 1, t, k);
      if e == j - 1 && r.steps[j - 1] != EndInit(t, k, true) {
        e := j;
      }
    }
  }

  lemma HoldStepAt(r: Run, i: nat, t: nat, k: Key)
    requires FromStart(r) && i < |r.steps| && r.steps[i] != Unlock(t, k)
    requires t < |r.states[i].reqs| && HeldWeight(r.states[i].reqs[t], k) > 0
    ensures t < |r.states[i + 1].reqs| && HeldWeight(r.states[i + 1].reqs[t], k) > 0
    ensures Holding(r.states[i], t, k) && r.steps[i] != EndInit(t, k, true) ==>
              Holding(r.states[i + 1], t, k)
  {
    Reachable(r, i);
    assert StepAt(r, i);
    HoldStep(r.states[i], r.steps[i], t, k);
  }

  lemma HoldStep(s: State, a: Step, t: nat, k: Key)
    requires ShapeOk(s) && Enabled(s, a) && t < |s.reqs| && a != Unlock(t, k) && HeldWeight(s.reqs[t], k) > 0
    ensures t < |Apply(s, a).reqs| && HeldWeight(Apply(s, a).reqs[t], k) > 0
    ensures Holding(s, t, k) && a != EndInit(t, k, true) ==> Holding(Apply(s, a), t, k)
  {
    if a.Accept? {
    } else if a.t != t {
      OneMover(s, a);
    } else {
      MoverHolds(s, a, k);
    }
  }

  lemma MoverHolds(s: State, a: Step, k: Key)
    requires Enabled(s, a) && !a.Accept? && Shaped(s.reqs[a.t]) && a != Unlock(a.t, k)
    requires HeldWeight(s.reqs[a.t], k) > 0
    ensures a.t < |Apply(s, a).reqs|
    ensures var ks, ks' := s.reqs[a.t].states[k], Apply(s, a).reqs[a.t].states[k];
            && (ks'.Locked? || ks'.Held?)
            && (ks'.lock == ks.lock || (a == EndInit(a.t, k, true) && ks'.lock == WithResult(ks.lock, true)))
  {
  }

  // ----- all or nothing

  /** A granted request holds every key in exactly its mode and has left the queue; a finished one
      holds nothing and has left the queue, whichever of its locks failed. */
  lemma AllOrNothing(r: Run, i: nat, t: nat)
    requires FromStart(r) && i <= |r.steps| && t < |r.states[i].reqs|
    requires r.states[i].reqs[t].modes != map[]
    ensures var s := r.states[i]; var q := s.reqs[t];
            q.phase.Using? ==>
              && (forall k :: k in q.modes ==> HeldWeight(q, k) == if q.modes[k].exclusive then MAX else 1)
              && (forall e :: e in s.queue ==> e.ticket != t)
    ensures var s := r.states[i]; var q := s.reqs[t];
            q.phase.Done? ==>
              && (forall k :: HeldWeight(q, k) == 0)
              && (forall e :: e in s.queue ==> e.ticket != t)
  {
    var s := r.states[i];
    Reachable(r, i);
    if s.reqs[t].phase.Using? || s.reqs[t].phase.Done? {
      assert !Queued(s.reqs[t]);
      forall e | e in s.queue ensures e.ticket != t {
        var j :| 0 <= j < |s.queue| && s.queue[j] == e;
        RawEntry(s.reqs, j);
      }
    }
  }
}
