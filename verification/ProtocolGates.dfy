/** The meaning of a closed init gate: what a request that passes it may rely on, and exactly when a
    rollback leaves a gate closed for ever. */
module ProtocolGates {
  import opened Basics
  import opened LockValues
  import opened Protocol
  import opened ProtocolQueue
  import opened ProtocolSafety
  import opened ProtocolRuns

  /** Gate meaning, over every run: closed exactly when an init has succeeded, or the single winner
      is acquiring the exclusive lock or holds it with its result not set, or a rollback leaked it. */
  lemma GateMeaning(r: Run, i: nat, k: Key)
    requires FromStart(r) && i <= |r.steps|
    ensures var s := r.states[i];
            k in s.closed <==> k in s.succeeded || HasWinner(s, k) || k in s.leaked
    ensures var s := r.states[i];
            HasWinner(s, k) ==> k !in s.succeeded && k !in s.leaked
  {
    Reachable(r, i);
    assert GateOkAt(r.states[i], k);
  }

  // ----- what a request that passed the gate sees

  /** Some init of `k` has ended, or its gate was leaked. */
  predicate Known(s: State, k: Key) {
    k in s.succeeded || k in s.failed || k in s.leaked
  }

  predicate OtherWinner(s: State, t: nat, k: Key) {
    exists o :: 0 <= o < |s.reqs| && o != t && LiveWinner(s.reqs[o], k)
  }

  ghost predicate InformedAt(s: State, t: nat, k: Key) {
    t < |s.reqs| && k in s.reqs[t].modes && k in s.reqs[t].states && s.reqs[t].modes[k].init ==>
      var ks := s.reqs[t].states[k];
      && (ks.Passing? ==> Known(s, k) || OtherWinner(s, t, k))
      && ((ks.Locked? || ks.Held?) && !ks.lock.init ==> Known(s, k))
  }

  ghost predicate Informed(s: State) {
    forall t: nat, k: Key :: InformedAt(s, t, k)
  }

  /** A winner stops being one only with its outcome known, while nobody else is past the gate. */
  lemma OtherWinnerKept(s: State, a: Step, t: nat, k: Key)
    requires Inv(s) && Enabled(s, a) && t < |s.reqs| && OtherWinner(s, t, k)
    requires s.reqs[t].phase.Locking? && k in s.reqs[t].states && s.reqs[t].states[k].Passing?
    ensures Known(Apply(s, a), k) || OtherWinner(Apply(s, a), t, k)
  {
    var s' := Apply(s, a);
    var o :| 0 <= o < |s.reqs| && o != t && LiveWinner(s.reqs[o], k);
    if a.Accept? || a.t != o {
      Unmoved(s, a, o);
    } else {
      WinnerNotInside(s, t, o, k);
      WinnerEnds(s, a, k);
      assert LiveWinner(s'.reqs[o], k) ==> OtherWinner(s', t, k);
    }
  }

  lemma WinnerNotInside(s: State, t: nat, o: nat, k: Key)
    requires Inv(s) && t < |s.reqs| && o < |s.reqs| && o != t && LiveWinner(s.reqs[o], k)
    requires s.reqs[t].phase.Locking? && k in s.reqs[t].states && s.reqs[t].states[k].Passing?
    ensures !s.reqs[o].states[k].Winning? && HeldWeight(s.reqs[o], k) == MAX
  {
    assert Shaped(s.reqs[o]) && KeyFits(s.reqs[o].phase, s.reqs[o].modes[k], s.reqs[o].states[k]);
    if s.reqs[o].states[k].Winning? {
      OneLocker(s, t, o, k);
    }
  }

  lemma WinnerEnds(s: State, a: Step, k: Key)
    requires Enabled(s, a) && !a.Accept? && Shaped(s.reqs[a.t])
    requires LiveWinner(s.reqs[a.t], k) && !s.reqs[a.t].states[k].Winning?
    ensures a.t < |Apply(s, a).reqs|
    ensures LiveWinner(Apply(s, a).reqs[a.t], k) || Known(Apply(s, a), k)
  {
  }

  lemma InformedKept(s: State, a: Step, t: nat, k: Key)
    requires Inv(s) && Enabled(s, a) && InformedAt(s, t, k)
    ensures InformedAt(Apply(s, a), t, k)
  {
    var s' := Apply(s, a);
    StepGrows(s, a);
    if t < |s.reqs| && k in s.reqs[t].states {
      assert Shaped(s.reqs[t]);
      if a.Accept? || a.t != t {
        Unmoved(s, a, t);
        if k in s.reqs[t].modes && s.reqs[t].modes[k].init && s.reqs[t].states[k].Passing? && !Known(s, k) {
          assert KeyFits(s.reqs[t].phase, s.reqs[t].modes[k], s.reqs[t].states[k]);
          OtherWinnerKept(s, a, t, k);
        }
      } else {
        InformedMover(s, a, k);
      }
    }
  }

  lemma InformedMover(s: State, a: Step, k: Key)
    requires Inv(s) && Enabled(s, a) && !a.Accept? && InformedAt(s, a.t, k) && k in s.reqs[a.t].states
    ensures InformedAt(Apply(s, a), a.t, k)
  {
    var r := s.reqs[a.t];
    assert Shaped(r) && KeyFits(r.phase, r.modes[k], r.states[k]);
    if a == Grant(a.t, k) {
      GrantInformed(s, a.t, k);
    } else if a == EnterGate(a.t, k) {
      GateInformed(s, a.t, k);
    } else {
      QuietInformed(s, a, k);
    }
  }

  lemma GrantInformed(s: State, t: nat, k: Key)
    requires Inv(s) && Enabled(s, Grant(t, k)) && InformedAt(s, t, k)
    ensures InformedAt(Apply(s, Grant(t, k)), t, k)
  {
    if s.reqs[t].states[k].Passing? && OtherWinner(s, t, k) {
      var o :| 0 <= o < |s.reqs| && o != t && LiveWinner(s.reqs[o], k);
      WinnerNotInside(s, t, o, k);
      GrantBeside(s, o, t, k);
    }
  }

  lemma GateInformed(s: State, t: nat, k: Key)
    requires Inv(s) && Enabled(s, EnterGate(t, k)) && InformedAt(s, t, k)
    ensures InformedAt(Apply(s, EnterGate(t, k)), t, k)
  {
    var s' := Apply(s, EnterGate(t, k));
    assert GateOkAt(s, k);
    if k in s.closed && !Known(s, k) {
      var o :| 0 <= o < |s.reqs| && LiveWinner(s.reqs[o], k);
      assert o != t && LiveWinner(s'.reqs[o], k);
    }
  }

  /** The remaining steps keep a request on its side of the gate and change no other winner. */
  lemma QuietInformed(s: State, a: Step, k: Key)
    requires Enabled(s, a) && !a.Accept? && Shaped(s.reqs[a.t]) && InformedAt(s, a.t, k)
    requires k in s.reqs[a.t].states && a != Grant(a.t, k) && a != EnterGate(a.t, k)
    ensures InformedAt(Apply(s, a), a.t, k)
  {
    var s' := Apply(s, a);
    OneMover(s, a);
    QuietKey(s, a, k);
    assert forall o :: 0 <= o < |s.reqs| && o != a.t ==> s'.reqs[o] == s.reqs[o];
    assert OtherWinner(s, a.t, k) ==> OtherWinner(s', a.t, k);
  }

  lemma QuietKey(s: State, a: Step, k: Key)
    requires Enabled(s, a) && !a.Accept? && Shaped(s.reqs[a.t])
    requires k in s.reqs[a.t].states && a != Grant(a.t, k) && a != EnterGate(a.t, k)
    ensures a.t < |Apply(s, a).reqs| && k in Apply(s, a).reqs[a.t].states
    ensures var ks, ks' := s.reqs[a.t].states[k], Apply(s, a).reqs[a.t].states[k];
            && (ks'.Passing? ==> ks.Passing?)
            && (ks'.Locked? || ks'.Held? ==> (ks.Locked? || ks.Held?) && ks'.lock.init == ks.lock.init)
    ensures Known(s, k) ==> Known(Apply(s, a), k)
  {
  }

  lemma {:induction false} RunInformed(r: Run, i: nat)
    requires FromStart(r) && i <= |r.steps|
    ensures Informed(r.states[i])
  {
    if i > 0 {
      RunInformed(r, i - 1);
      Reachable(r, i - 1);
      assert StepAt(r, i - 1);
      forall t: nat, k: Key ensures InformedAt(r.states[i], t, k) {
        InformedKept(r.states[i - 1], r.steps[i - 1], t, k);
      }
    }
  }

  /** A request that asked for init and was handed its locks sees a completed init, unless an init
      of that key has failed or its gate was leaked. */
  lemma UsersSeeInit(r: Run, i: nat, t: nat, k: Key)
    requires FromStart(r) && i <= |r.steps| && t < |r.states[i].reqs|
    requires r.states[i].reqs[t].phase.Using? && k in r.states[i].reqs[t].modes && r.states[i].reqs[t].modes[k].init
    requires k !in r.states[i].failed && k !in r.states[i].leaked
    ensures k in r.states[i].succeeded
  {
    var s := r.states[i];
    RunInformed(r, i);
    Reachable(r, i);
    assert InformedAt(s, t, k) && Shaped(s.reqs[t]) && KeyFits(Using, s.reqs[t].modes[k], s.reqs[t].states[k]);
    WinnersRecorded(r, i);
  }

  predicate SucceededOn(q: Request, k: Key) {
    k in q.states && q.states[k].Held? && q.states[k].result.Succeeded?
  }

  /** Every reported success is on record. */
  lemma {:induction false} WinnersRecorded(r: Run, i: nat)
    requires FromStart(r) && i <= |r.steps|
    ensures forall t, k :: 0 <= t < |r.states[i].reqs| && SucceededOn(r.states[i].reqs[t], k) ==> k in r.states[i].succeeded
  {
    if i > 0 {
      WinnersRecorded(r, i - 1);
      Reachable(r, i - 1);
      assert StepAt(r, i - 1);
      var s, a := r.states[i - 1], r.steps[i - 1];
      if !a.Accept? {
        OneMover(s, a);
        RecordedStep(s, a);
      }
    }
  }

  lemma RecordedStep(s: State, a: Step)
    requires Enabled(s, a) && !a.Accept? && Shaped(s.reqs[a.t])
    requires forall k :: SucceededOn(s.reqs[a.t], k) ==> k in s.succeeded
    ensures a.t < |Apply(s, a).reqs| && s.succeeded <= Apply(s, a).succeeded
    ensures forall k :: SucceededOn(Apply(s, a).reqs[a.t], k) ==> k in Apply(s, a).succeeded
  {
  }

  // ----- leaked gates

  /** A request that mixes an init key with another key. */
  predicate Mixes(modes: map<Key, Mode>, k: Key) {
    k in modes && modes[k].init && |modes| >= 2
  }

  predicate HasRefused(q: Request) {
    exists j :: j in q.states && q.states[j].Refused?
  }

  predicate Sourced(s: State, k: Key) {
    exists t :: 0 <= t < |s.reqs| && Mixes(s.reqs[t].modes, k)
  }

  /** A request rolling back has a refused key; every leaked gate was won by a mixing request. */
  ghost predicate LeakOk(s: State) {
    && (forall t :: 0 <= t < |s.reqs| && s.reqs[t].phase.Undoing? ==> HasRefused(s.reqs[t]))
    && (forall k :: k in s.leaked ==> Sourced(s, k))
  }

  lemma LeakKept(s: State, a: Step)
    requires Inv(s) && LeakOk(s) && Enabled(s, a)
    ensures LeakOk(Apply(s, a))
  {
    var s' := Apply(s, a);
    forall k | k in s'.leaked ensures Sourced(s', k) {
      SourcedKept(s, a, k);
    }
    forall t | 0 <= t < |s'.reqs| && s'.reqs[t].phase.Undoing? ensures HasRefused(s'.reqs[t]) {
      if !a.Accept? {
        OneMover(s, a);
        if t == a.t {
          RefusedStays(s, a);
        }
      }
    }
  }

  lemma SourcedKept(s: State, a: Step, k: Key)
    requires Inv(s) && LeakOk(s) && Enabled(s, a) && k in Apply(s, a).leaked
    ensures Sourced(Apply(s, a), k)
  {
    StepGrows(s, a);
    var t: nat;
    if k in s.leaked {
      t :| 0 <= t < |s.reqs| && Mixes(s.reqs[t].modes, k);
    } else {
      t := a.t;
      LeakerMixes(s, a, k);
    }
    assert RequestGrows(s.reqs[t], Apply(s, a).reqs[t]);
    assert Mixes(Apply(s, a).reqs[t].modes, k);
  }

  lemma RefusedStays(s: State, a: Step)
    requires Inv(s) && LeakOk(s) && Enabled(s, a) && !a.Accept? && Apply(s, a).reqs[a.t].phase.Undoing?
    ensures HasRefused(Apply(s, a).reqs[a.t])
  {
    var j :| j in s.reqs[a.t].states && s.reqs[a.t].states[j].Refused?;
    assert j in Apply(s, a).reqs[a.t].states && Apply(s, a).reqs[a.t].states[j].Refused?;
  }

  lemma LeakerMixes(s: State, a: Step, k: Key)
    requires Inv(s) && LeakOk(s) && Enabled(s, a) && !a.Accept? && k in Apply(s, a).leaked && k !in s.leaked
    ensures Mixes(s.reqs[a.t].modes, k)
  {
    var q := s.reqs[a.t];
    assert a == Unlock(a.t, k) && Shaped(q) && KeyFits(q.phase, q.modes[k], q.states[k]);
    var j :| j in q.states && q.states[j].Refused?;
    assert {j, k} <= q.modes.Keys;
    TwoKeys(q.modes, j, k);
  }

  lemma TwoKeys(m: map<Key, Mode>, j: Key, k: Key)
    requires j in m && k in m && j != k
    ensures |m| >= 2
  {
    assert m.Keys == (m.Keys - {j, k}) + {j, k};
    assert |m| == |m.Keys|;
  }

  lemma {:induction false} RunLeaks(r: Run, i: nat)
    requires FromStart(r) && i <= |r.steps|
    ensures LeakOk(r.states[i])
  {
    if i > 0 {
      RunLeaks(r, i - 1);
      Reachable(r, i - 1);
      assert StepAt(r, i - 1);
      LeakKept(r.states[i - 1], r.steps[i - 1]);
    }
  }

  /** Only requests that mix an init key with another key can leak its gate. */
  lemma NoMixNoLeak(r: Run, i: nat, k: Key)
    requires FromStart(r) && i <= |r.steps|
    requires forall j :: 0 <= j < i && r.steps[j].Accept? ==> !Mixes(r.steps[j].modes, k)
    ensures k !in r.states[i].leaked
  {
    RunLeaks(r, i);
    if k in r.states[i].leaked {
      var t :| 0 <= t < |r.states[i].reqs| && Mixes(r.states[i].reqs[t].modes, k);
      AcceptedFrom(r, i, t);
    }
  }

  lemma {:induction false} AcceptedFrom(r: Run, i: nat, t: nat)
    requires FromStart(r) && i <= |r.steps| && t < |r.states[i].reqs|
    ensures exists j :: 0 <= j < i && r.steps[j] == Accept(r.states[i].reqs[t].modes)
  {
    assert i > 0;
    var s, a := r.states[i - 1], r.steps[i - 1];
    assert StepAt(r, i - 1);
    Reachable(r, i - 1);
    if !a.Accept? {
      OneMover(s, a);
    }
    if t < |s.reqs| {
      AcceptedFrom(r, i - 1, t);
      assert r.states[i].reqs[t].modes == s.reqs[t].modes;
    } else {
      assert r.steps[i - 1] == Accept(r.states[i].reqs[t].modes);
    }
  }

  /** A leaked gate stays closed and its init is never started again. */
  lemma LeakIsForever(r: Run, i: nat, j: nat, k: Key)
    requires FromStart(r) && i <= j <= |r.steps| && k in r.states[i].leaked
    ensures k in r.states[j].closed
    ensures j < |r.steps| && r.steps[j].StartInit? ==> r.steps[j].k != k
  {
    RunGrows(r, i, j);
    Reachable(r, j);
    var s := r.states[j];
    assert GateOkAt(s, k);
    assert forall t :: 0 <= t < |s.reqs| ==> !LiveWinner(s.reqs[t], k);
  }

  /** The single request has won `k`; of its other keys those in `todo` are still to be refused. */
  ghost predicate Midway(s: State, m: map<Key, Mode>, k: Key, todo: set<Key>) {
    && |s.reqs| == 1 && s.reqs[0].modes == m && s.reqs[0].phase == Locking && s.reqs[0].states.Keys == m.Keys
    && s.closed == {k} && s.succeeded == {} && s.failed == {} && k in m && s.reqs[0].states[k] == Held(NewLock(m[k], true), Unset)
    && (forall j :: j in m && j != k ==> s.reqs[0].states[j] == if j in todo then Entering(m[j]) else Refused)
  }

  lemma AcceptFirst(m: map<Key, Mode>) returns (r: Run)
    ensures FromStart(r) && r.steps == [Accept(m)]
    ensures var s := r.states[1];
            s.reqs == [NewRequest(m)] && s.closed == {} && s.sem == map[] && s.succeeded == {} && s.failed == {}
  {
    r := Extend(Run([INITIAL], []), Accept(m));
  }

  lemma BeginFirst(m: map<Key, Mode>) returns (r: Run)
    ensures FromStart(r) && |r.steps| > 0 && r.steps[0] == Accept(m)
    ensures var s := r.states[|r.steps|];
            && s.reqs == [NewRequest(m).(phase := Locking)]
            && s.closed == {} && s.sem == map[] && s.succeeded == {} && s.failed == {}
  {
    r := AcceptFirst(m);
    Reachable(r, 1);
    UnblockedStarts(r.states[1], 0);
    r := Extend(r, Begin(0));
  }

  lemma WinFirst(m: map<Key, Mode>, k: Key) returns (r: Run)
    requires k in m && m[k].init
    ensures FromStart(r) && Midway(r.states[|r.steps|], m, k, m.Keys - {k})
    ensures |r.steps| > 0 && r.steps[0] == Accept(m)
  {
    r := BeginFirst(m);
    r := Extend(r, EnterGate(0, k));
    r := Extend(r, Grant(0, k));
    r := Extend(r, Notify(0, k));
  }

  lemma {:induction false} RefuseRest(r0: Run, m: map<Key, Mode>, k: Key, todo: set<Key>) returns (r: Run)
    requires FromStart(r0) && Midway(r0.states[|r0.steps|], m, k, todo) && todo <= m.Keys - {k}
    requires |r0.steps| > 0 && r0.steps[0] == Accept(m)
    ensures FromStart(r) && Midway(r.states[|r.steps|], m, k, {})
    ensures |r.steps| > 0 && r.steps[0] == Accept(m)
    decreases todo
  {
    r := r0;
    if todo != {} {
      var j :| j in todo;
      if m[j].init {
        r := Extend(r, EnterGate(0, j));
      }
      r := Extend(r, Refuse(0, j));
      r := RefuseRest(r, m, k, todo - {j});
    }
  }

  /** Conversely every request that mixes an init key with another key has a run that leaks its
      gate: the key is won and locked, everything else is refused, and the rollback unlocks it. */
  lemma MixCanLeak(m: map<Key, Mode>, k: Key) returns (r: Run)
    requires Mixes(m, k)
    ensures FromStart(r) && |r.steps| > 0 && r.steps[0] == Accept(m)
    ensures k in r.states[|r.steps|].leaked && k in r.states[|r.steps|].closed
    ensures var s := r.states[|r.steps|];
            s.succeeded == {} && s.failed == {} && |s.reqs| == 1 && s.reqs[0].phase.Undoing? && HeldWeight(s.reqs[0], k) == 0
  {
    r := WinFirst(m, k);
    r := RefuseRest(r, m, k, m.Keys - {k});
    var j := OtherKey(m, k);
    r := Extend(r, Join(0));
    r := Extend(r, Unlock(0, k));
  }

  lemma OtherKey(m: map<Key, Mode>, k: Key) returns (j: Key)
    requires k in m && |m| >= 2
    ensures j in m && j != k
  {
    assert |{k}| == 1 && |m| == |m.Keys|;
    assert m.Keys - {k} != {};
    j :| j in m.Keys - {k};
  }

  // ----- passing the gate behind an init that fails

  ghost predicate OneKey(q: Request, m: map<Key, Mode>, k: Key, p: Phase, ks: KeyState) {
    q.modes == m && q.phase == p && q.states.Keys == {k} && q.states[k] == ks
  }

  /** Two requests for the single key `k`, and the weight taken from its semaphore. */
  ghost predicate Pair(r: Run, k: Key, p0: Phase, s0: KeyState, p1: Phase, s1: KeyState, cur: int) {
    && FromStart(r)
    && var s, m := r.states[|r.steps|], map[k := Mode(false, true)];
    && |s.reqs| == 2 && OneKey(s.reqs[0], m, k, p0, s0) && OneKey(s.reqs[1], m, k, p1, s1)
    && Cur(s, k) == cur && s.succeeded == {}
  }

  lemma WonAlone(k: Key) returns (r: Run)
    ensures FromStart(r)
    ensures var s := r.states[|r.steps|];
            && |s.reqs| == 1 && OneKey(s.reqs[0], map[k := Mode(false, true)], k, Initing(false), Held(Lock(true, false, false), Unset))
            && Cur(s, k) == MAX && s.closed == {k} && s.succeeded == {}
  {
    var m := map[k := Mode(false, true)];
    r := WinFirst(m, k);
    r := Extend(r, Join(0));
    Reachable(r, |r.steps|);
    var s := r.states[|r.steps|];
    assert Cur(s, k) == Total(s.reqs, k);
    assert s.reqs[..0] == [] && Total(s.reqs[..0], k) == 0;
  }

  lemma Behind(k: Key) returns (r: Run)
    ensures Pair(r, k, Initing(false), Held(Lock(true, false, false), Unset), Locking, AtGate, MAX)
    ensures k in r.states[|r.steps|].closed
  {
    r := WonAlone(k);
    r := Extend(r, Accept(map[k := Mode(false, true)]));
    Reachable(r, |r.steps|);
    UnblockedStarts(r.states[|r.steps|], 1);
    r := Extend(r, Begin(1));
  }

  lemma Pass(r0: Run, k: Key) returns (r: Run)
    requires Pair(r0, k, Initing(false), Held(Lock(true, false, false), Unset), Locking, AtGate, MAX)
    requires k in r0.states[|r0.steps|].closed
    ensures Pair(r, k, Initing(false), Held(Lock(true, false, false), Running), Locking, Passing, MAX)
  {
    r := Extend(r0, EnterGate(1, k));
    r := Extend(r, StartInit(0, k));
  }

  lemma InitFails(r0: Run, k: Key) returns (r: Run)
    requires Pair(r0, k, Initing(false), Held(Lock(true, false, false), Running), Locking, Passing, MAX)
    ensures Pair(r, k, Releasing, Held(Lock(true, false, false), Failed), Locking, Passing, MAX)
  {
    r := Extend(r0, EndInit(0, k, false));
    r := Extend(r, Return(0));
  }

  lemma Freeing(r0: Run, k: Key) returns (r: Run)
    requires Pair(r0, k, Releasing, Held(Lock(true, false, false), Failed), Locking, Passing, MAX)
    ensures Pair(r, k, Releasing, Freed, Locking, Passing, 0)
  {
    r := Extend(r0, Unlock(0, k));
  }

  lemma Granted(r0: Run, k: Key) returns (r: Run)
    requires Pair(r0, k, Releasing, Freed, Locking, Passing, 0)
    ensures Pair(r, k, Releasing, Freed, Locking, Held(Lock(false, false, true), Unset), 1)
  {
    r := Extend(r0, Grant(1, k));
    r := Extend(r, Notify(1, k));
  }

  /** The limit of the gate, for every key: a request passes the gate while another request's init
      is running, that init fails, and the request is handed its lock although no init of the key
      has ever succeeded. */
  lemma PassedBehindFailure(k: Key) returns (r: Run)
    ensures FromStart(r)
    ensures var s := r.states[|r.steps|];
            |s.reqs| == 2 && s.reqs[1].phase.Using? && k in s.reqs[1].modes && s.reqs[1].modes[k].init && k !in s.succeeded
  {
    r := Behind(k);
    r := Pass(r, k);
    r := InitFails(r, k);
    r := Freeing(r, k);
    r := Granted(r, k);
    r := Extend(r, Join(1));
    r := Extend(r, Return(1));
  }
}
