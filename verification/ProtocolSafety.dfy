/** What every step of the locking protocol keeps, and the safety of every run that follows from it. */
module ProtocolSafety {
  import opened Basics
  import opened LockValues
  import opened Protocol
  import opened ProtocolQueue

  // ----- the shape of one request

  ghost predicate LockFits(l: Lock, m: Mode, res: InitResult) {
    && l.exclusive == m.exclusive
    && (l.init ==> m.init)
    && (!l.init ==> res.Unset?)
    && (l.downgraded <==> !l.exclusive && (l.init ==> res.Succeeded?))
  }

  ghost predicate KeyFits(p: Phase, m: Mode, ks: KeyState) {
    match p
    case Waiting => ks == Entering(m)
    case Cancelled => ks == Entering(m)
    case Locking =>
      (match ks
       case AtGate => m.init
       case Winning => m.init
       case Passing => true
       case Locked(l) => LockFits(l, m, Unset)
       case Held(l, res) => res.Unset? && LockFits(l, m, res)
       case Refused => true
       case Freed => false)
    case Undoing => Over(ks) || (ks.Held? && ks.result.Unset? && LockFits(ks.lock, m, Unset))
    case Initing(failed) =>
      && ks.Held? && LockFits(ks.lock, m, ks.result)
      && (if failed then !ks.result.Running? else !ks.result.Failed?)
    case Using => Returned(ks) && LockFits(ks.lock, m, ks.result) && !ks.result.Failed?
    case Releasing => ks.Freed? || (Returned(ks) && LockFits(ks.lock, m, ks.result))
    case Done => Over(ks)
  }

  predicate RunningOn(r: Request, k: Key) {
    k in r.states && r.states[k].Held? && r.states[k].result.Running?
  }

  ghost predicate Shaped(r: Request) {
    && r.states.Keys == r.modes.Keys
    && (forall k :: k in r.modes ==> KeyFits(r.phase, r.modes[k], r.states[k]))
    && (forall i, j :: RunningOn(r, i) && RunningOn(r, j) ==> i == j)
  }

  ghost predicate ShapeOk(s: State) {
    forall t :: 0 <= t < |s.reqs| ==> Shaped(s.reqs[t])
  }

  predicate Began(r: Request) {
    !r.phase.Waiting? && !r.phase.Cancelled?
  }

  /** Every step but an arrival moves one request and lets its pending keys only shrink. */
  lemma OneMover(s: State, a: Step)
    requires Enabled(s, a) && !a.Accept?
    requires Shaped(s.reqs[a.t])
    ensures a.t < |s.reqs| && |Apply(s, a).reqs| == |s.reqs|
    ensures Apply(s, a).reqs == s.reqs[a.t := Apply(s, a).reqs[a.t]]
    ensures Apply(s, a).reqs[a.t].modes == s.reqs[a.t].modes
    ensures Pending(Apply(s, a).reqs[a.t]) <= Pending(s.reqs[a.t])
    ensures Began(Apply(s, a).reqs[a.t]) <==> Began(s.reqs[a.t]) || a.Begin?
  {
  }

  lemma KeyMoveShaped(r: Request, k: Key, ks: KeyState)
    requires Shaped(r) && k in r.modes && KeyFits(r.phase, r.modes[k], ks)
    requires ks.Held? && ks.result.Running? ==> forall j :: !RunningOn(r, j)
    ensures Shaped(r.(states := r.states[k := ks]))
  {
    var r' := r.(states := r.states[k := ks]);
    forall j ensures j != k ==> RunningOn(r', j) == RunningOn(r, j) {
    }
  }

  lemma PhaseMoveShaped(r: Request, p: Phase)
    requires Shaped(r) && forall k :: k in r.modes ==> KeyFits(p, r.modes[k], r.states[k])
    ensures Shaped(r.(phase := p))
  {
    assert forall j :: RunningOn(r.(phase := p), j) == RunningOn(r, j);
  }

  lemma KeyStepShaped(s: State, a: Step)
    requires Enabled(s, a) && KeyStep(a) && !a.EndInit?
    requires Shaped(s.reqs[a.t])
    ensures Shaped(Apply(s, a).reqs[a.t])
  {
    KeyMoveShaped(s.reqs[a.t], a.k, Apply(s, a).reqs[a.t].states[a.k]);
  }

  lemma EndInitShaped(s: State, a: Step)
    requires Enabled(s, a) && a.EndInit? && Shaped(s.reqs[a.t])
    ensures Shaped(Apply(s, a).reqs[a.t])
  {
    var r, r' := s.reqs[a.t], Apply(s, a).reqs[a.t];
    assert RunningOn(r, a.k);
    forall k | k in r.modes ensures KeyFits(r'.phase, r.modes[k], r'.states[k]) {
      if k != a.k {
        assert !RunningOn(r, k);
      }
    }
    forall j ensures !RunningOn(r', j) {
      if j != a.k {
        assert !RunningOn(r, j);
      }
    }
  }

  lemma PhaseStepShaped(s: State, a: Step)
    requires Enabled(s, a) && !a.Accept? && !KeyStep(a)
    requires Shaped(s.reqs[a.t])
    ensures Shaped(Apply(s, a).reqs[a.t])
  {
    PhaseMoveShaped(s.reqs[a.t], Apply(s, a).reqs[a.t].phase);
  }

  lemma MoverShaped(s: State, a: Step)
    requires Enabled(s, a) && !a.Accept? && Shaped(s.reqs[a.t])
    ensures Shaped(Apply(s, a).reqs[a.t])
  {
    if a.EndInit? {
      EndInitShaped(s, a);
    } else if KeyStep(a) {
      KeyStepShaped(s, a);
    } else {
      PhaseStepShaped(s, a);
    }
  }

  lemma ShapeKept(s: State, a: Step)
    requires ShapeOk(s) && Enabled(s, a)
    ensures ShapeOk(Apply(s, a))
  {
    if !a.Accept? {
      OneMover(s, a);
      MoverShaped(s, a);
    }
  }

  // ----- acceptance order

  /** Once a request has begun, no earlier request still wants any of its keys. */
  ghost predicate OrderOk(s: State) {
    forall t, u, k :: 0 <= t < u < |s.reqs| && Began(s.reqs[u]) && k in s.reqs[u].modes ==> k !in Pending(s.reqs[t])
  }

  lemma OrderKept(s: State, a: Step)
    requires ShapeOk(s) && QueueOk(s) && OrderOk(s) && Enabled(s, a)
    ensures OrderOk(Apply(s, a))
  {
    if !a.Accept? {
      OneMover(s, a);
      if a.Begin? {
        StartedMeans(s, a.t);
      }
      OrderFollows(s, Apply(s, a), a.t);
    }
  }

  /** A request may begin when it is unblocked; otherwise pending keys only shrink. */
  lemma OrderFollows(s: State, s': State, m: nat)
    requires OrderOk(s) && m < |s.reqs| == |s'.reqs| && s'.reqs == s.reqs[m := s'.reqs[m]]
    requires s'.reqs[m].modes == s.reqs[m].modes && Pending(s'.reqs[m]) <= Pending(s.reqs[m])
    requires Began(s'.reqs[m]) ==> Began(s.reqs[m]) || (Unblocked(s.reqs, m) && Pending(s.reqs[m]) == s.reqs[m].modes.Keys)
    ensures OrderOk(s')
  {
  }

  lemma QueueKept(s: State, a: Step)
    requires ShapeOk(s) && QueueOk(s) && Enabled(s, a)
    ensures QueueOk(Apply(s, a))
  {
    if a.Accept? {
      AcceptKeepsQueue(s, a.modes);
    } else if a.Notify? {
      NotifyKeepsQueue(s, a.t, a.k);
    } else if a.Join? && exists k :: k in s.reqs[a.t].states && s.reqs[a.t].states[k].Refused? {
      var k :| k in s.reqs[a.t].states && s.reqs[a.t].states[k].Refused?;
      UndoKeepsQueue(s, a.t, k);
    } else {
      QuietKeepsPending(s, a);
      OneMover(s, a);
      RawSame(s.reqs, a.t, Apply(s, a).reqs[a.t]);
    }
  }

  lemma QuietKeepsPending(s: State, a: Step)
    requires Enabled(s, a) && !a.Accept? && !a.Notify? && Shaped(s.reqs[a.t])
    requires a.Join? ==> forall k :: k in s.reqs[a.t].states ==> !s.reqs[a.t].states[k].Refused?
    ensures Pending(Apply(s, a).reqs[a.t]) == Pending(s.reqs[a.t])
    ensures Queued(Apply(s, a).reqs[a.t]) == Queued(s.reqs[a.t])
  {
    var r, r' := s.reqs[a.t], Apply(s, a).reqs[a.t];
    if a.Join? {
      assert Pending(r) == {};
    } else {
      assert Pending(r') == Pending(r);
    }
  }

  // ----- semaphore weights

  /** What a request has taken from the semaphore of `k` and not given back. */
  function HeldWeight(r: Request, k: Key): (w: int)
    ensures w >= 0
  {
    if k in r.states && (r.states[k].Locked? || r.states[k].Held?) then Weight(r.states[k].lock) else 0
  }

  function Total(reqs: seq<Request>, k: Key): int {
    if reqs == [] then 0 else Total(reqs[..|reqs| - 1], k) + HeldWeight(reqs[|reqs| - 1], k)
  }

  /** Conservation: every semaphore holds exactly the weight of the live locks on its key. */
  ghost predicate WeightOk(s: State) {
    forall k: Key :: Cur(s, k) == Total(s.reqs, k) <= MAX
  }

  lemma {:induction false} TotalUpdate(reqs: seq<Request>, t: nat, r: Request, k: Key)
    requires t < |reqs|
    ensures Total(reqs[t := r], k) == Total(reqs, k) - HeldWeight(reqs[t], k) + HeldWeight(r, k)
  {
    var n := |reqs| - 1;
    if t < n {
      TotalUpdate(reqs[..n], t, r, k);
      assert reqs[t := r][..n] == reqs[..n][t := r];
    } else {
      assert reqs[t := r][..n] == reqs[..n];
    }
  }

  lemma {:induction false} TotalAtLeast(reqs: seq<Request>, k: Key)
    ensures 0 <= Total(reqs, k)
    ensures forall t :: 0 <= t < |reqs| ==> HeldWeight(reqs[t], k) <= Total(reqs, k)
    ensures forall t, u :: 0 <= t < u < |reqs| ==> HeldWeight(reqs[t], k) + HeldWeight(reqs[u], k) <= Total(reqs, k)
  {
    if reqs != [] {
      TotalAtLeast(reqs[..|reqs| - 1], k);
    }
  }

  lemma {:induction false} TotalZero(reqs: seq<Request>, k: Key)
    requires forall t :: 0 <= t < |reqs| ==> HeldWeight(reqs[t], k) == 0
    ensures Total(reqs, k) == 0
  {
    if reqs != [] {
      TotalZero(reqs[..|reqs| - 1], k);
    }
  }

  /** A step moves the semaphore of each key by exactly what its request gained or gave back. */
  lemma WeightMoves(s: State, a: Step, k: Key)
    requires Enabled(s, a) && !a.Accept? && Shaped(s.reqs[a.t])
    ensures Cur(Apply(s, a), k) - Cur(s, k) == HeldWeight(Apply(s, a).reqs[a.t], k) - HeldWeight(s.reqs[a.t], k)
    ensures Cur(Apply(s, a), k) <= Cur(s, k) || Cur(Apply(s, a), k) <= MAX
  {
    if KeyStep(a) {
      WeightMovesKey(s, a, k);
    }
  }

  lemma WeightMovesKey(s: State, a: Step, k: Key)
    requires Enabled(s, a) && KeyStep(a) && Shaped(s.reqs[a.t])
    ensures Cur(Apply(s, a), k) - Cur(s, k) == HeldWeight(Apply(s, a).reqs[a.t], k) - HeldWeight(s.reqs[a.t], k)
    ensures Cur(Apply(s, a), k) <= Cur(s, k) || Cur(Apply(s, a), k) <= MAX
  {
  }

  lemma WeightKept(s: State, a: Step)
    requires ShapeOk(s) && WeightOk(s) && Enabled(s, a)
    ensures WeightOk(Apply(s, a))
  {
    var s' := Apply(s, a);
    forall k: Key ensures Cur(s', k) == Total(s'.reqs, k) <= MAX {
      assert Cur(s, k) == Total(s.reqs, k) <= MAX;
      if a.Accept? {
        assert s'.reqs[..|s.reqs|] == s.reqs;
      } else {
        OneMover(s, a);
        WeightMoves(s, a, k);
        TotalUpdate(s.reqs, a.t, s'.reqs[a.t], k);
      }
    }
  }

  // ----- init gates

  /** The request won the gate of `k` and has not yet reported the outcome of its init. */
  predicate LiveWinner(r: Request, k: Key) {
    k in r.states &&
    match r.states[k]
    case Winning => true
    case Locked(l) => l.init
    case Held(l, res) => l.init && (res.Unset? || res.Running?)
    case _ => false
  }

  predicate HasWinner(s: State, k: Key) {
    exists t :: 0 <= t < |s.reqs| && LiveWinner(s.reqs[t], k)
  }

  /** A gate is closed exactly when an init has succeeded, a winner is on its way, or a rollback
      released a winner without re-opening the gate. There is at most one winner. */
  ghost predicate GateOkAt(s: State, k: Key) {
    && (k in s.closed <==> k in s.succeeded || k in s.leaked || HasWinner(s, k))
    && (forall t :: 0 <= t < |s.reqs| && LiveWinner(s.reqs[t], k) ==> k !in s.succeeded && k !in s.leaked)
    && (forall t, u :: 0 <= t < |s.reqs| && 0 <= u < |s.reqs| && LiveWinner(s.reqs[t], k) && LiveWinner(s.reqs[u], k) ==> t == u)
  }

  ghost predicate GateOk(s: State) {
    forall k :: GateOkAt(s, k)
  }

  /** The five things a step of request `t` can do to the gate of `k`: nothing, win it, report
      success, re-open it, or give up the winner's lock with the gate still closed. */
  ghost predicate GateMoved(s: State, s': State, t: nat, k: Key)
    requires t < |s.reqs| && t < |s'.reqs|
  {
    var was, now := LiveWinner(s.reqs[t], k), LiveWinner(s'.reqs[t], k);
    var shut, shut' := k in s.closed, k in s'.closed;
    var sameDone, sameLeak := (k in s.succeeded) == (k in s'.succeeded), (k in s.leaked) == (k in s'.leaked);
    || (was == now && shut == shut' && sameDone && sameLeak)
    || (!was && now && !shut && shut' && sameDone && sameLeak)
    || (was && !now && shut == shut' && k in s'.succeeded && sameLeak)
    || (was && !now && !shut' && sameDone && sameLeak)
    || (was && !now && shut == shut' && sameDone && k in s'.leaked)
  }

  lemma WinnerMoves(s: State, a: Step, k: Key)
    requires Enabled(s, a) && !a.Accept? && Shaped(s.reqs[a.t])
    ensures a.t < |Apply(s, a).reqs| && GateMoved(s, Apply(s, a), a.t, k)
  {
    if KeyStep(a) && a.k == k {
      WinnerMovesHere(s, a);
    } else {
      WinnerStays(s, a, k);
    }
  }

  /** Steps about one key of one request. */
  predicate KeyStep(a: Step) {
    !a.Accept? && !a.Cancel? && !a.Begin? && !a.Join? && !a.Return? && !a.Release? && !a.Finish?
  }

  lemma WinnerMovesHere(s: State, a: Step)
    requires Enabled(s, a) && KeyStep(a) && Shaped(s.reqs[a.t])
    ensures a.t < |Apply(s, a).reqs| && GateMoved(s, Apply(s, a), a.t, a.k)
  {
  }

  lemma WinnerStays(s: State, a: Step, k: Key)
    requires Enabled(s, a) && !a.Accept? && (KeyStep(a) ==> a.k != k)
    ensures a.t < |Apply(s, a).reqs| && GateMoved(s, Apply(s, a), a.t, k)
  {
  }

  lemma Unmoved(s: State, a: Step, o: nat)
    requires Enabled(s, a) && o < |s.reqs| && (a.Accept? || a.t != o)
    ensures o < |Apply(s, a).reqs| && Apply(s, a).reqs[o] == s.reqs[o]
  {
  }

  lemma GateKept(s: State, a: Step)
    requires ShapeOk(s) && GateOk(s) && Enabled(s, a)
    ensures GateOk(Apply(s, a))
  {
    var s' := Apply(s, a);
    if a.Accept? {
      forall k ensures GateOkAt(s', k) {
        assert GateOkAt(s, k) && !LiveWinner(NewRequest(a.modes), k);
        assert forall t :: 0 <= t < |s.reqs| ==> s'.reqs[t] == s.reqs[t];
        assert HasWinner(s, k) <==> HasWinner(s', k);
      }
    } else {
      OneMover(s, a);
      forall k ensures GateOkAt(s', k) {
        WinnerMoves(s, a, k);
        GateFollows(s, s', a.t, k);
      }
    }
  }

  lemma GateFollows(s: State, s': State, t: nat, k: Key)
    requires GateOkAt(s, k) && t < |s.reqs| && t < |s'.reqs| && s'.reqs == s.reqs[t := s'.reqs[t]]
    requires GateMoved(s, s', t, k)
    ensures GateOkAt(s', k)
  {
    assert LiveWinner(s.reqs[t], k) ==> HasWinner(s, k);
    assert LiveWinner(s'.reqs[t], k) ==> HasWinner(s', k);
    assert forall u :: 0 <= u < |s.reqs| && u != t ==> LiveWinner(s'.reqs[u], k) == LiveWinner(s.reqs[u], k);
    assert HasWinner(s', k) && !LiveWinner(s'.reqs[t], k) ==> HasWinner(s, k);
  }

  // ----- the invariant of every run

  ghost predicate Inv(s: State) {
    ShapeOk(s) && QueueOk(s) && OrderOk(s) && WeightOk(s) && GateOk(s)
  }

  lemma InvKept(s: State, a: Step)
    requires Inv(s) && Enabled(s, a)
    ensures Inv(Apply(s, a))
  {
    ShapeKept(s, a);
    QueueKept(s, a);
    OrderKept(s, a);
    WeightKept(s, a);
    GateKept(s, a);
  }

  lemma {:induction false} RunInv(r: Run, i: nat)
    requires IsRun(r) && Inv(r.states[0]) && i <= |r.steps|
    ensures Inv(r.states[i])
  {
    if i > 0 {
      RunInv(r, i - 1);
      assert StepAt(r, i - 1);
      InvKept(r.states[i - 1], r.steps[i - 1]);
    }
  }

  /** Every state of every run from the initial state satisfies the invariant. */
  lemma Reachable(r: Run, i: nat)
    requires FromStart(r) && i <= |r.steps|
    ensures Inv(r.states[i])
  {
    assert Inv(INITIAL);
    RunInv(r, i);
  }
}
