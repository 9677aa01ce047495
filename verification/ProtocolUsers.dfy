/** What a user of a container that asked for its init can rely on, exactly, and the runs in which it
    finds no completed init. */
module ProtocolUsers {
  import opened Basics
  import opened LockValues
  import opened Protocol
  import opened ProtocolQueue
  import opened ProtocolSafety
  import opened ProtocolRuns
  import opened ProtocolGates

  // ----- from the grant on

  /** Request `t` holds `k` without having won its gate. */
  predicate Guest(s: State, t: nat, k: Key) {
    && t < |s.reqs| && k in s.reqs[t].states
    && (s.reqs[t].states[k].Locked? || s.reqs[t].states[k].Held?) && !s.reqs[t].states[k].lock.init
  }

  /** A step that records a success of `k` is the end of an init. */
  lemma SuccessStep(s: State, a: Step, k: Key)
    requires Enabled(s, a)
    ensures k in Apply(s, a).succeeded <==> k in s.succeeded || (a.EndInit? && a.ok && a.k == k)
  {
  }

  lemma EndsAlone(s: State, a: Step)
    requires Inv(s) && Enabled(s, a) && a.EndInit?
    ensures s.reqs[a.t].states[a.k].lock.init && HeldWeight(s.reqs[a.t], a.k) == MAX
  {
    assert KeyFits(s.reqs[a.t].phase, s.reqs[a.t].modes[a.k], s.reqs[a.t].states[a.k]);
  }

  /** While somebody else holds the key no init of it ends. */
  lemma NoEndBeside(s: State, a: Step, t: nat, k: Key)
    requires Inv(s) && Enabled(s, a) && Guest(s, t, k)
    ensures !(a.EndInit? && a.k == k)
  {
    TotalAtLeast(s.reqs, k);
    assert Cur(s, k) == Total(s.reqs, k) <= MAX;
    if a.EndInit? && a.k == k {
      EndsAlone(s, a);
    }
  }

  /** One step back from holding a key: it was held then too, or this step granted it. */
  lemma GuestBefore(s: State, a: Step, t: nat, k: Key)
    requires ShapeOk(s) && Enabled(s, a) && Guest(Apply(s, a), t, k)
    ensures Guest(s, t, k) || (a == Grant(t, k) && s.reqs[t].states[k].Passing?)
  {
    if a.Accept? {
      assert t < |s.reqs|;
    } else {
      OneMover(s, a);
      if a.t == t {
        MoverGuest(s, a, k);
      }
    }
  }

  lemma MoverGuest(s: State, a: Step, k: Key)
    requires Enabled(s, a) && !a.Accept? && Shaped(s.reqs[a.t]) && Guest(Apply(s, a), a.t, k)
    ensures Guest(s, a.t, k) || (a == Grant(a.t, k) && s.reqs[a.t].states[k].Passing?)
  {
  }

  /** What a non-winner finds was decided when it was granted the key. */
  lemma {:induction false} DecidedAtGrant(r: Run, i: nat, t: nat, k: Key) returns (g: nat)
    requires FromStart(r) && i <= |r.steps| && Guest(r.states[i], t, k)
    ensures g < i && r.steps[g] == Grant(t, k) && r.states[g].reqs[t].states[k].Passing?
    ensures k in r.states[i].succeeded <==> k in r.states[g].succeeded
  {
    assert i > 0;
    var s, a := r.states[i - 1], r.steps[i - 1];
    Reachable(r, i - 1);
    assert StepAt(r, i - 1);
    SuccessStep(s, a, k);
    GuestBefore(s, a, t, k);
    if Guest(s, t, k) {
      NoEndBeside(s, a, t, k);
      g := DecidedAtGrant(r, i - 1, t, k);
    } else {
      g := i - 1;
    }
  }

  // ----- from the gate to the grant

  /** Request `t` asked for the init of `k`, has passed its gate and waits for the semaphore. */
  predicate Passed(s: State, t: nat, k: Key) {
    && t < |s.reqs| && s.reqs[t].phase.Locking? && k in s.reqs[t].modes && s.reqs[t].modes[k].init
    && k in s.reqs[t].states && s.reqs[t].states[k].Passing?
  }

  lemma PassedBefore(s: State, a: Step, t: nat, k: Key)
    requires ShapeOk(s) && Enabled(s, a) && Passed(Apply(s, a), t, k)
    ensures Passed(s, t, k) || (a == EnterGate(t, k) && k in s.closed)
  {
    if a.Accept? {
      assert t < |s.reqs|;
    } else {
      OneMover(s, a);
      if a.t == t {
        MoverPassed(s, a, k);
      }
    }
  }

  lemma MoverPassed(s: State, a: Step, k: Key)
    requires Enabled(s, a) && !a.Accept? && Shaped(s.reqs[a.t]) && Passed(Apply(s, a), a.t, k)
    ensures Passed(s, a.t, k) || (a == EnterGate(a.t, k) && k in s.closed)
  {
    assert k in s.reqs[a.t].modes ==> KeyFits(s.reqs[a.t].phase, s.reqs[a.t].modes[k], s.reqs[a.t].states[k]);
  }

  /** While a request waits behind the gate nobody else wins it. */
  lemma NoNewWinner(s: State, a: Step, t: nat, k: Key, w: nat)
    requires Inv(s) && Enabled(s, a) && Passed(s, t, k) && w < |Apply(s, a).reqs| && LiveWinner(Apply(s, a).reqs[w], k)
    ensures w < |s.reqs| && LiveWinner(s.reqs[w], k)
  {
    if a.Accept? {
      assert !LiveWinner(NewRequest(a.modes), k);
    } else {
      OneMover(s, a);
      if a.t == w {
        WinnerFrom(s, a, k);
        if a == EnterGate(w, k) {
          OneLocker(s, t, w, k);
        }
      }
    }
  }

  lemma WinnerFrom(s: State, a: Step, k: Key)
    requires Enabled(s, a) && !a.Accept? && Shaped(s.reqs[a.t]) && a.t < |Apply(s, a).reqs| && LiveWinner(Apply(s, a).reqs[a.t], k)
    ensures LiveWinner(s.reqs[a.t], k) || a == EnterGate(a.t, k)
  {
  }

  lemma EndsWinner(s: State, a: Step)
    requires Inv(s) && Enabled(s, a) && a.EndInit?
    ensures a.t < |s.reqs| && LiveWinner(s.reqs[a.t], a.k)
  {
    assert KeyFits(s.reqs[a.t].phase, s.reqs[a.t].modes[a.k], s.reqs[a.t].states[a.k]);
  }

  /** The winner `w` that was on its way at `e` reports success at `m`, before `g`. */
  ghost predicate ReportsInTime(r: Run, e: nat, g: nat, k: Key, w: nat, m: nat)
    requires IsRun(r)
  {
    && e < m < g <= |r.steps| && w < |r.states[e].reqs|
    && LiveWinner(r.states[e].reqs[w], k) && r.steps[m] == EndInit(w, k, true)
  }

  /** When a request passed the gate: an init had succeeded, or its winner then reports in time. */
  ghost predicate Initialised(r: Run, e: nat, g: nat, k: Key)
    requires IsRun(r) && e <= |r.steps|
  {
    k in r.states[e].succeeded || exists w: nat, m: nat :: ReportsInTime(r, e, g, k, w, m)
  }

  ghost predicate WinnersFrom(r: Run, e: nat, g: nat, k: Key)
    requires IsRun(r) && e <= |r.steps| && g <= |r.steps|
  {
    forall w :: 0 <= w < |r.states[g].reqs| && LiveWinner(r.states[g].reqs[w], k) ==>
      w < |r.states[e].reqs| && LiveWinner(r.states[e].reqs[w], k)
  }

  /** What a request behind the gate will find follows from the gate and the winner it passed. */
  lemma {:induction false} DecidedAtGate(r: Run, g: nat, t: nat, k: Key) returns (e: nat)
    requires FromStart(r) && g <= |r.steps| && Passed(r.states[g], t, k)
    ensures e < g && r.steps[e] == EnterGate(t, k) && k in r.states[e].closed
    ensures k in r.states[g].succeeded <==> Initialised(r, e, g, k)
    ensures WinnersFrom(r, e, g, k)
  {
    assert g > 0;
    var s, a := r.states[g - 1], r.steps[g - 1];
    Reachable(r, g - 1);
    assert StepAt(r, g - 1);
    PassedBefore(s, a, t, k);
    if Passed(s, t, k) {
      e := DecidedAtGate(r, g - 1, t, k);
      OneLater(r, e, g - 1, t, k);
    } else {
      e := g - 1;
      EntersOnly(r, e, t, k);
    }
  }

  lemma EntersOnly(r: Run, e: nat, t: nat, k: Key)
    requires FromStart(r) && e < |r.steps| && r.steps[e] == EnterGate(t, k) && k in r.states[e].closed
    ensures k in r.states[e + 1].succeeded <==> Initialised(r, e, e + 1, k)
    ensures WinnersFrom(r, e, e + 1, k)
  {
    assert StepAt(r, e);
  }

  lemma OneLater(r: Run, e: nat, g: nat, t: nat, k: Key)
    requires FromStart(r) && e < g < |r.steps| && Passed(r.states[g], t, k)
    requires k in r.states[g].succeeded <==> Initialised(r, e, g, k)
    requires WinnersFrom(r, e, g, k)
    ensures k in r.states[g + 1].succeeded <==> Initialised(r, e, g + 1, k)
    ensures WinnersFrom(r, e, g + 1, k)
  {
    WinnersLater(r, e, g, t, k);
    SuccessLater(r, g, k);
    LaterInitialised(r, e, g, k);
    if r.steps[g].EndInit? && r.steps[g].ok && r.steps[g].k == k {
      EndReports(r, e, g, k);
    }
  }

  lemma SuccessLater(r: Run, g: nat, k: Key)
    requires IsRun(r) && g < |r.steps|
    ensures k in r.states[g + 1].succeeded <==> k in r.states[g].succeeded || (r.steps[g].EndInit? && r.steps[g].ok && r.steps[g].k == k)
  {
    assert StepAt(r, g);
    SuccessStep(r.states[g], r.steps[g], k);
  }

  lemma WinnersLater(r: Run, e: nat, g: nat, t: nat, k: Key)
    requires FromStart(r) && e < g < |r.steps| && Passed(r.states[g], t, k) && WinnersFrom(r, e, g, k)
    ensures WinnersFrom(r, e, g + 1, k)
  {
    Reachable(r, g);
    assert StepAt(r, g);
    forall w | 0 <= w < |r.states[g + 1].reqs| && LiveWinner(r.states[g + 1].reqs[w], k)
      ensures w < |r.states[e].reqs| && LiveWinner(r.states[e].reqs[w], k)
    {
      NoNewWinner(r.states[g], r.steps[g], t, k, w);
    }
  }

  lemma EndReports(r: Run, e: nat, g: nat, k: Key)
    requires FromStart(r) && e < g < |r.steps| && WinnersFrom(r, e, g, k)
    requires r.steps[g].EndInit? && r.steps[g].ok && r.steps[g].k == k
    ensures Initialised(r, e, g + 1, k)
  {
    Reachable(r, g);
    EndsWinner(r.states[g], r.steps[g]);
    assert ReportsInTime(r, e, g + 1, k, r.steps[g].t, g);
  }

  lemma LaterInitialised(r: Run, e: nat, g: nat, k: Key)
    requires IsRun(r) && e < g < |r.steps|
    ensures Initialised(r, e, g, k) ==> Initialised(r, e, g + 1, k)
    ensures Initialised(r, e, g + 1, k) ==> Initialised(r, e, g, k) || (r.steps[g].EndInit? && r.steps[g].ok && r.steps[g].k == k)
  {
    var later := g + 1;
    if w: nat, m: nat :| ReportsInTime(r, e, g, k, w, m) {
      assert ReportsInTime(r, e, later, k, w, m);
    }
    if w: nat, m: nat :| ReportsInTime(r, e, later, k, w, m) {
      assert m < g ==> ReportsInTime(r, e, g, k, w, m);
    }
  }

  // ----- winners

  /** Request `t` has won the gate of `k` and waits for its semaphore, or holds it. */
  predicate WaitsAsWinner(s: State, t: nat, k: Key) {
    t < |s.reqs| && k in s.reqs[t].states && s.reqs[t].states[k].Winning?
  }

  predicate HoldsAsWinner(s: State, t: nat, k: Key) {
    && t < |s.reqs| && k in s.reqs[t].states
    && (s.reqs[t].states[k].Locked? || s.reqs[t].states[k].Held?) && s.reqs[t].states[k].lock.init
  }

  lemma WinnerBefore(s: State, a: Step, t: nat, k: Key)
    requires ShapeOk(s) && Enabled(s, a)
    ensures HoldsAsWinner(Apply(s, a), t, k) ==> HoldsAsWinner(s, t, k) || (a == Grant(t, k) && WaitsAsWinner(s, t, k))
    ensures WaitsAsWinner(Apply(s, a), t, k) ==> WaitsAsWinner(s, t, k) || (a == EnterGate(t, k) && k !in s.closed)
  {
    if !a.Accept? {
      OneMover(s, a);
      if a.t == t {
        MoverWinner(s, a, k);
      }
    }
  }

  lemma MoverWinner(s: State, a: Step, k: Key)
    requires Enabled(s, a) && !a.Accept? && Shaped(s.reqs[a.t])
    ensures HoldsAsWinner(Apply(s, a), a.t, k) ==> HoldsAsWinner(s, a.t, k) || (a == Grant(a.t, k) && WaitsAsWinner(s, a.t, k))
    ensures WaitsAsWinner(Apply(s, a), a.t, k) ==> WaitsAsWinner(s, a.t, k) || (a == EnterGate(a.t, k) && k !in s.closed)
  {
  }

  lemma {:induction false} WinnerEntered(r: Run, g: nat, t: nat, k: Key) returns (e: nat)
    requires FromStart(r) && g <= |r.steps| && WaitsAsWinner(r.states[g], t, k)
    ensures e < g && r.steps[e] == EnterGate(t, k) && k !in r.states[e].closed
  {
    assert g > 0;
    Reachable(r, g - 1);
    assert StepAt(r, g - 1);
    WinnerBefore(r.states[g - 1], r.steps[g - 1], t, k);
    e := g - 1;
    if WaitsAsWinner(r.states[g - 1], t, k) {
      e := WinnerEntered(r, g - 1, t, k);
    }
  }

  lemma {:induction false} WinnerGranted(r: Run, i: nat, t: nat, k: Key) returns (e: nat, g: nat)
    requires FromStart(r) && i <= |r.steps| && HoldsAsWinner(r.states[i], t, k)
    ensures e < g < i && r.steps[e] == EnterGate(t, k) && r.steps[g] == Grant(t, k) && k !in r.states[e].closed
  {
    assert i > 0;
    Reachable(r, i - 1);
    assert StepAt(r, i - 1);
    WinnerBefore(r.states[i - 1], r.steps[i - 1], t, k);
    if HoldsAsWinner(r.states[i - 1], t, k) {
      e, g := WinnerGranted(r, i - 1, t, k);
    } else {
      g := i - 1;
      e := WinnerEntered(r, g, t, k);
    }
  }

  // ----- the exact condition

  lemma InUse(r: Run, i: nat, t: nat, k: Key)
    requires FromStart(r) && i <= |r.steps| && t < |r.states[i].reqs|
    requires r.states[i].reqs[t].phase.Using? && k in r.states[i].reqs[t].modes
    ensures HoldsAsWinner(r.states[i], t, k) || Guest(r.states[i], t, k)
    ensures HoldsAsWinner(r.states[i], t, k) ==> k in r.states[i].succeeded
  {
    var s := r.states[i];
    Reachable(r, i);
    assert Shaped(s.reqs[t]) && KeyFits(Using, s.reqs[t].modes[k], s.reqs[t].states[k]);
    WinnersRecorded(r, i);
    assert HoldsAsWinner(s, t, k) ==> SucceededOn(s.reqs[t], k);
  }

  /** For every run and every request that asked for the init of `k` and was handed its locks: it
      finds a completed init if and only if, when it came to the gate, it won it, or an init had
      already succeeded, or the winner on its way reported success before the request was granted
      the key. */
  lemma UsersSeeInitExactly(r: Run, i: nat, t: nat, k: Key) returns (e: nat, g: nat)
    requires FromStart(r) && i <= |r.steps| && t < |r.states[i].reqs|
    requires r.states[i].reqs[t].phase.Using? && k in r.states[i].reqs[t].modes && r.states[i].reqs[t].modes[k].init
    ensures e < g < i && r.steps[e] == EnterGate(t, k) && r.steps[g] == Grant(t, k)
    ensures k in r.states[i].succeeded <==> k !in r.states[e].closed || Initialised(r, e, g, k)
  {
    InUse(r, i, t, k);
    if HoldsAsWinner(r.states[i], t, k) {
      e, g := WinnerGranted(r, i, t, k);
    } else {
      g := DecidedAtGrant(r, i, t, k);
      AskedAtGrant(r, i, g, t, k);
      e := DecidedAtGate(r, g, t, k);
    }
  }

  lemma AskedAtGrant(r: Run, i: nat, g: nat, t: nat, k: Key)
    requires FromStart(r) && g < i <= |r.steps| && r.steps[g] == Grant(t, k) && r.states[g].reqs[t].states[k].Passing?
    requires t < |r.states[i].reqs| && k in r.states[i].reqs[t].modes && r.states[i].reqs[t].modes[k].init
    ensures Passed(r.states[g], t, k)
  {
    RunGrows(r, g, i);
    assert RequestGrows(r.states[g].reqs[t], r.states[i].reqs[t]);
  }

  // ----- a user behind a leaked gate

  /** The gate of `k` is leaked without any init having ended, and the second request wants only `k`
      and its init. */
  ghost predicate Leaked(r: Run, k: Key, exclusive: bool, p: Phase, ks: KeyState) {
    && FromStart(r)
    && var s := r.states[|r.steps|];
    && k in s.leaked && k in s.closed && s.succeeded == {} && s.failed == {}
    && |s.reqs| == 2 && s.reqs[0].phase.Undoing? && HeldWeight(s.reqs[0], k) == 0
    && OneKey(s.reqs[1], map[k := Mode(exclusive, true)], k, p, ks)
  }

  lemma LeakedFree(r: Run, k: Key, exclusive: bool, p: Phase, ks: KeyState)
    requires Leaked(r, k, exclusive, p, ks) && !ks.Locked? && !ks.Held?
    ensures Cur(r.states[|r.steps|], k) == 0
  {
    var s := r.states[|r.steps|];
    Reachable(r, |r.steps|);
    TotalZero(s.reqs, k);
    assert Cur(s, k) == Total(s.reqs, k);
  }

  lemma LeakedThenAsked(m: map<Key, Mode>, k: Key, exclusive: bool) returns (r: Run)
    requires Mixes(m, k)
    ensures Leaked(r, k, exclusive, Locking, AtGate) && |r.steps| > 0 && r.steps[0] == Accept(m)
  {
    r := MixCanLeak(m, k);
    r := Extend(r, Accept(map[k := Mode(exclusive, true)]));
    assert Leaked(r, k, exclusive, Waiting, AtGate);
    Reachable(r, |r.steps|);
    UnblockedStarts(r.states[|r.steps|], 1);
    r := Extend(r, Begin(1));
  }

  lemma LeakedThenPassed(r0: Run, k: Key, exclusive: bool) returns (r: Run)
    requires Leaked(r0, k, exclusive, Locking, AtGate)
    ensures Leaked(r, k, exclusive, Locking, Passing) && r0.steps <= r.steps
  {
    Reachable(r0, |r0.steps|);
    GateUncontended(r0.states[|r0.steps|], 1, k);
    r := Extend(r0, EnterGate(1, k));
  }

  lemma LeakedThenHeld(r0: Run, k: Key, exclusive: bool) returns (r: Run)
    requires Leaked(r0, k, exclusive, Locking, Passing)
    ensures Leaked(r, k, exclusive, Locking, Held(NewLock(Mode(exclusive, true), false), Unset)) && r0.steps <= r.steps
  {
    LeakedFree(r0, k, exclusive, Locking, Passing);
    r := Extend(r0, Grant(1, k));
    r := Extend(r, Notify(1, k));
  }

  lemma LeakedThenUsed(r0: Run, k: Key, exclusive: bool) returns (r: Run)
    requires Leaked(r0, k, exclusive, Locking, Held(NewLock(Mode(exclusive, true), false), Unset))
    ensures Leaked(r, k, exclusive, Using, Held(NewLock(Mode(exclusive, true), false), Unset)) && r0.steps <= r.steps
  {
    r := Extend(r0, Join(1));
    r := Extend(r, Return(1));
  }

  /** For every request that mixes an init key with another key, a run that leaks its gate and then
      hands the container, shared or exclusive, to a request that asked for its init, though no init
      has ever ended, well or badly. */
  lemma UsedBehindLeak(m: map<Key, Mode>, k: Key, exclusive: bool) returns (r: Run)
    requires Mixes(m, k)
    ensures Leaked(r, k, exclusive, Using, Held(NewLock(Mode(exclusive, true), false), Unset))
    ensures |r.steps| > 0 && r.steps[0] == Accept(m)
  {
    r := LeakedThenAsked(m, k, exclusive);
    var first := r.steps;
    r := LeakedThenPassed(r, k, exclusive);
    assert r.steps[0] == first[0];
    r := LeakedThenHeld(r, k, exclusive);
    r := LeakedThenUsed(r, k, exclusive);
  }
}
