/** Freedom from deadlock: a waiting request waits only for requests accepted before it, some step is
    always possible, and a run without arrivals drains within a bound counted from its first state. */
module ProtocolLiveness {
  import opened Basics
  import opened AcquireQueue
  import opened LockValues
  import opened Protocol
  import opened ProtocolQueue
  import opened ProtocolSafety
  import opened ProtocolRuns
  import opened MapSums

  // ----- the measure

  function PhaseRank(p: Phase): nat {
    match p
    case Waiting => 6
    case Locking => 5
    case Initing(failed) => if failed then 3 else 4
    case Using => 2
    case Undoing => 1
    case Releasing => 1
    case Cancelled => 0
    case Done => 0
  }

  function KeyRank(ks: KeyState): nat {
    match ks
    case AtGate => 7
    case Winning => 6
    case Passing => 6
    case Locked(_) => 5
    case Held(_, res) => (match res case Unset => 4 case Running => 3 case _ => 2)
    case Refused => 0
    case Freed => 0
  }

  function Ranks(r: Request): map<Key, nat> {
    map k | k in r.states :: KeyRank(r.states[k])
  }

  ghost function Rank(r: Request): nat {
    PhaseRank(r.phase) + Sum(Ranks(r))
  }

  /** The number of steps the accepted requests can still take. */
  ghost function Measure(reqs: seq<Request>): nat {
    if reqs == [] then 0 else Measure(reqs[..|reqs| - 1]) + Rank(reqs[|reqs| - 1])
  }

  /** Six steps for a request and seven for each of its keys. */
  ghost function Budget(reqs: seq<Request>): nat {
    if reqs == [] then 0 else Budget(reqs[..|reqs| - 1]) + 6 + 7 * |reqs[|reqs| - 1].modes|
  }

  lemma {:induction false} MeasureUpdate(reqs: seq<Request>, t: nat, r: Request)
    requires t < |reqs|
    ensures Measure(reqs[t := r]) == Measure(reqs) - Rank(reqs[t]) + Rank(r)
  {
    var n := |reqs| - 1;
    if t < n {
      MeasureUpdate(reqs[..n], t, r);
      assert reqs[t := r][..n] == reqs[..n][t := r];
    } else {
      assert reqs[t := r][..n] == reqs[..n];
    }
  }

  lemma {:induction false} MeasureBounded(reqs: seq<Request>)
    requires forall t :: 0 <= t < |reqs| ==> reqs[t].states.Keys == reqs[t].modes.Keys
    ensures Measure(reqs) <= Budget(reqs)
  {
    if reqs != [] {
      var r := reqs[|reqs| - 1];
      MeasureBounded(reqs[..|reqs| - 1]);
      SumAtMost(Ranks(r), 7);
      assert Ranks(r).Keys == r.modes.Keys;
      assert |Ranks(r)| == |Ranks(r).Keys| && |r.modes| == |r.modes.Keys|;
    }
  }

  lemma KeyMoveRank(r: Request, k: Key, ks: KeyState)
    requires k in r.states && KeyRank(ks) < KeyRank(r.states[k])
    ensures Sum(Ranks(r.(states := r.states[k := ks]))) < Sum(Ranks(r))
  {
    SumUpdates(Ranks(r), k, KeyRank(ks));
    assert Ranks(r.(states := r.states[k := ks])) == Ranks(r)[k := KeyRank(ks)];
  }

  lemma PhaseStepRank(s: State, a: Step)
    requires Enabled(s, a) && !a.Accept? && !KeyStep(a)
    ensures a.t < |Apply(s, a).reqs| && Rank(Apply(s, a).reqs[a.t]) < Rank(s.reqs[a.t])
  {
    assert Ranks(Apply(s, a).reqs[a.t]) == Ranks(s.reqs[a.t]);
  }

  lemma KeyStepRank(s: State, a: Step)
    requires Enabled(s, a) && KeyStep(a) && Shaped(s.reqs[a.t])
    ensures a.t < |Apply(s, a).reqs| && Rank(Apply(s, a).reqs[a.t]) < Rank(s.reqs[a.t])
  {
    var r, r' := s.reqs[a.t], Apply(s, a).reqs[a.t];
    KeyMoveRank(r, a.k, r'.states[a.k]);
    assert Ranks(r') == Ranks(r.(states := r.states[a.k := r'.states[a.k]]));
  }

  /** Every step but an arrival uses up some of the measure. */
  lemma MeasureDrops(s: State, a: Step)
    requires ShapeOk(s) && Enabled(s, a) && !a.Accept?
    ensures Measure(Apply(s, a).reqs) < Measure(s.reqs)
  {
    OneMover(s, a);
    if KeyStep(a) {
      KeyStepRank(s, a);
    } else {
      PhaseStepRank(s, a);
    }
    MeasureUpdate(s.reqs, a.t, Apply(s, a).reqs[a.t]);
  }

  // ----- enabledness

  /** A step that takes an accepted request further: no arrival, cancellation or failing lock. */
  predicate Productive(a: Step) {
    !a.Accept? && !a.Cancel? && !a.Refuse?
  }

  ghost predicate Quiescent(s: State) {
    forall a: Step :: Productive(a) ==> !Enabled(s, a)
  }

  /** A request past its lock phase can always move: init, return, release or finish. */
  lemma HolderMoves(s: State, t: nat) returns (a: Step)
    requires Inv(s) && t < |s.reqs|
    requires Clearing(s.reqs[t].phase) || s.reqs[t].phase.Initing? || s.reqs[t].phase.Using?
    ensures Productive(a) && Enabled(s, a)
  {
    var r := s.reqs[t];
    if r.phase.Using? {
      a := Release(t);
    } else if Clearing(r.phase) {
      if k :| k in r.states && !Over(r.states[k]) {
        assert KeyFits(r.phase, r.modes[k], r.states[k]);
        a := Unlock(t, k);
      } else {
        a := Finish(t);
      }
    } else {
      a := IniterMoves(s, t);
    }
  }

  lemma IniterMoves(s: State, t: nat) returns (a: Step)
    requires Inv(s) && t < |s.reqs| && s.reqs[t].phase.Initing?
    ensures Productive(a) && Enabled(s, a)
  {
    var r := s.reqs[t];
    if k :| RunningOn(r, k) {
      assert KeyFits(r.phase, r.modes[k], r.states[k]);
      a := EndInit(t, k, true);
    } else if k :| k in r.states && !Returned(r.states[k]) {
      assert KeyFits(r.phase, r.modes[k], r.states[k]) && !RunningOn(r, k);
      assert forall j :: j in r.states && r.states[j].Held? ==> !RunningOn(r, j);
      a := if r.phase.failed then SkipInit(t, k) else StartInit(t, k);
    } else {
      a := Return(t);
    }
  }

  /** If some request is in its lock phase then somebody can move: either it can, or whoever holds
      the key it wants, which is a request accepted before it. */
  lemma {:induction false} LockerMoves(s: State, t: nat) returns (a: Step)
    requires Inv(s) && t < |s.reqs| && s.reqs[t].phase.Locking?
    ensures Productive(a) && Enabled(s, a)
    decreases t
  {
    var r := s.reqs[t];
    if k :| k in r.states && !Settled(r.states[k]) {
      assert KeyFits(r.phase, r.modes[k], r.states[k]);
      if r.states[k].Locked? {
        a := Notify(t, k);
      } else if r.states[k].AtGate? {
        GateUncontended(s, t, k);
        a := EnterGate(t, k);
      } else if u :| 0 <= u < |s.reqs| && HeldWeight(s.reqs[u], k) > 0 {
        HoldersAreEarlier(s, t, u, k);
        assert KeyFits(s.reqs[u].phase, s.reqs[u].modes[k], s.reqs[u].states[k]);
        if s.reqs[u].phase.Locking? {
          a := LockerMoves(s, u);
        } else {
          a := HolderMoves(s, u);
        }
      } else {
        TotalZero(s.reqs, k);
        assert Cur(s, k) == Total(s.reqs, k);
        a := Grant(t, k);
      }
    } else {
      a := Join(t);
    }
  }

  /** Which requests can be left when nothing can move: finished ones, cancelled ones, and waiting
      ones with a conflict before them that is itself cancelled or waiting. */
  lemma WhoIsLeft(s: State, t: nat)
    requires Inv(s) && Quiescent(s) && t < |s.reqs|
    ensures var r := s.reqs[t];
            || r.phase.Done? || r.phase.Cancelled?
            || (r.phase.Waiting? && exists o :: 0 <= o < t && !(Pending(s.reqs[o]) !! r.modes.Keys)
                                                && (s.reqs[o].phase.Cancelled? || s.reqs[o].phase.Waiting?))
  {
    var r := s.reqs[t];
    if Clearing(r.phase) || r.phase.Initing? || r.phase.Using? {
      var a := HolderMoves(s, t);
    } else if r.phase.Locking? {
      var a := LockerMoves(s, t);
    } else if r.phase.Waiting? {
      if Unblocked(s.reqs, t) {
        UnblockedStarts(s, t);
        assert Productive(Begin(t));
      } else {
        var o :| 0 <= o < t && !(Pending(s.reqs[o]) !! Pending(s.reqs[t]));
        if s.reqs[o].phase.Locking? {
          var a := LockerMoves(s, o);
        }
      }
    }
  }

  /** No deadlock: if nobody has been cancelled while waiting, a state in which nothing can move has
      finished every request, freed every semaphore and holds only entries without keys. */
  lemma NoDeadlock(s: State)
    requires Inv(s) && Quiescent(s)
    requires forall t :: 0 <= t < |s.reqs| ==> !s.reqs[t].phase.Cancelled?
    ensures forall t :: 0 <= t < |s.reqs| ==> s.reqs[t].phase.Done?
    ensures forall k :: Cur(s, k) == 0
    ensures forall e :: e in s.queue ==> e.ticket < |s.reqs| && e.keys == {} && s.reqs[e.ticket].modes == map[]
    ensures s.queue == [] || exists t :: 0 <= t < |s.reqs| && s.reqs[t].modes == map[]
  {
    AllDone(s, |s.reqs|);
    forall k ensures Cur(s, k) == 0 {
      forall t | 0 <= t < |s.reqs| ensures HeldWeight(s.reqs[t], k) == 0 {
        if k in s.reqs[t].states {
          assert KeyFits(s.reqs[t].phase, s.reqs[t].modes[k], s.reqs[t].states[k]);
        }
      }
      TotalZero(s.reqs, k);
    }
    forall e | e in s.queue ensures e.ticket < |s.reqs| && e.keys == {} && s.reqs[e.ticket].modes == map[] {
      var i :| 0 <= i < |s.queue| && s.queue[i] == e;
      RawEntry(s.reqs, i);
    }
    if s.queue != [] {
      assert s.queue[0] in s.queue;
    }
  }

  lemma {:induction false} AllDone(s: State, n: nat)
    requires Inv(s) && Quiescent(s) && n <= |s.reqs|
    requires forall t :: 0 <= t < |s.reqs| ==> !s.reqs[t].phase.Cancelled?
    ensures forall t :: 0 <= t < n ==> s.reqs[t].phase.Done?
  {
    if n > 0 {
      AllDone(s, n - 1);
      WhoIsLeft(s, n - 1);
    }
  }

  // ----- exactly who is left

  predicate Conflict(q: Request, r: Request) {
    !(q.modes.Keys !! r.modes.Keys)
  }

  /** A chain of conflicts leads from `t` back to a request that was cancelled while it waited. */
  ghost predicate Stuck(reqs: seq<Request>, t: nat)
    requires t < |reqs|
  {
    exists o :: 0 <= o < t && Conflict(reqs[o], reqs[t]) && (reqs[o].phase.Cancelled? || Stuck(reqs, o))
  }

  /** In every state: nobody behind such a chain has begun. */
  lemma {:induction false} StuckWaits(s: State, t: nat)
    requires Inv(s) && t < |s.reqs| && Stuck(s.reqs, t)
    ensures !Began(s.reqs[t])
    decreases t
  {
    var o :| 0 <= o < t && Conflict(s.reqs[o], s.reqs[t]) && (s.reqs[o].phase.Cancelled? || Stuck(s.reqs, o));
    if !s.reqs[o].phase.Cancelled? {
      StuckWaits(s, o);
    }
    assert Pending(s.reqs[o]) == s.reqs[o].modes.Keys;
    var k :| k in s.reqs[o].modes && k in s.reqs[t].modes;
  }

  /** Where nothing can move, whoever still waits is behind such a chain. */
  lemma {:induction false} WaitersAreStuck(s: State, t: nat)
    requires Inv(s) && Quiescent(s) && t < |s.reqs| && s.reqs[t].phase.Waiting?
    ensures Stuck(s.reqs, t)
    decreases t
  {
    WhoIsLeft(s, t);
    var o :| 0 <= o < t && !(Pending(s.reqs[o]) !! s.reqs[t].modes.Keys) && (s.reqs[o].phase.Cancelled? || s.reqs[o].phase.Waiting?);
    if s.reqs[o].phase.Waiting? {
      WaitersAreStuck(s, o);
    }
    assert Conflict(s.reqs[o], s.reqs[t]);
  }

  /** The exact condition for progress: where a run cannot be continued, a request is finished if and
      only if it was not cancelled while it waited and no chain of conflicts leads from it back to a
      request that was. */
  lemma {:induction false} FinishedExactly(r: Run, t: nat)
    requires FromStart(r) && Quiescent(r.states[|r.steps|]) && t < |r.states[|r.steps|].reqs|
    ensures var reqs := r.states[|r.steps|].reqs;
            reqs[t].phase.Done? <==> !reqs[t].phase.Cancelled? && !Stuck(reqs, t)
  {
    var s := r.states[|r.steps|];
    Reachable(r, |r.steps|);
    WhoIsLeft(s, t);
    if s.reqs[t].phase.Waiting? {
      WaitersAreStuck(s, t);
    }
    if Stuck(s.reqs, t) {
      StuckWaits(s, t);
    }
  }

  // ----- whole runs

  lemma ShortensOnce(r: Run, i: nat)
    requires IsRun(r) && Inv(r.states[0]) && i < |r.steps| && !r.steps[i].Accept?
    ensures Measure(r.states[i + 1].reqs) < Measure(r.states[i].reqs)
  {
    RunInv(r, i);
    assert StepAt(r, i);
    MeasureDrops(r.states[i], r.steps[i]);
  }

  lemma {:induction false} RunShortens(r: Run, i: nat, j: nat)
    requires IsRun(r) && Inv(r.states[0]) && i <= j <= |r.steps|
    requires forall m :: i <= m < j ==> !r.steps[m].Accept?
    ensures Measure(r.states[j].reqs) + (j - i) <= Measure(r.states[i].reqs)
    decreases j - i
  {
    if i < j {
      RunShortens(r, i, j - 1);
      ShortensOnce(r, j - 1);
    }
  }

  /** Draining: from any reachable state, a run without arrivals has at most six steps per request
      and seven per key; if nobody is cancelled while waiting, then where it cannot be continued
      every request is finished and nothing is locked or queued. */
  lemma Drains(r: Run, i: nat)
    requires FromStart(r) && i <= |r.steps|
    requires forall m :: i <= m < |r.steps| ==> !r.steps[m].Accept?
    ensures |r.steps| - i <= Measure(r.states[i].reqs) <= Budget(r.states[i].reqs)
    ensures var s := r.states[|r.steps|];
            Quiescent(s) && (forall t :: 0 <= t < |s.reqs| ==> !s.reqs[t].phase.Cancelled? && s.reqs[t].modes != map[]) ==>
              && (forall t :: 0 <= t < |s.reqs| ==> s.reqs[t].phase.Done?)
              && (forall k :: Cur(s, k) == 0)
              && s.queue == []
  {
    assert Inv(INITIAL);
    RunShortens(r, i, |r.steps|);
    Reachable(r, i);
    assert forall t :: 0 <= t < |r.states[i].reqs| ==> Shaped(r.states[i].reqs[t]);
    MeasureBounded(r.states[i].reqs);
    var s := r.states[|r.steps|];
    Reachable(r, |r.steps|);
    if Quiescent(s) && (forall t :: 0 <= t < |s.reqs| ==> !s.reqs[t].phase.Cancelled? && s.reqs[t].modes != map[]) {
      NoDeadlock(s);
    }
  }

  /** The cost of a cancellation: a request behind a cancelled one it conflicts with never begins. */
  lemma {:induction false} CancelledBlocks(r: Run, i: nat, j: nat, t: nat, u: nat, k: Key)
    requires FromStart(r) && i <= j <= |r.steps| && t < u < |r.states[i].reqs|
    requires r.states[i].reqs[t].phase.Cancelled? && k in r.states[i].reqs[t].modes && k in r.states[i].reqs[u].modes
    ensures u < |r.states[j].reqs| && r.states[j].reqs[t].phase.Cancelled?
    ensures !Began(r.states[j].reqs[u])
    decreases j - i
  {
    RunGrows(r, i, j);
    Reachable(r, j);
    assert RequestGrows(r.states[i].reqs[u], r.states[j].reqs[u]);
    assert RequestGrows(r.states[i].reqs[t], r.states[j].reqs[t]);
    if i < j {
      CancelledBlocks(r, i, j - 1, t, u, k);
      assert StepAt(r, j - 1);
      Reachable(r, j - 1);
      if !r.steps[j - 1].Accept? {
        OneMover(r.states[j - 1], r.steps[j - 1]);
      }
    }
    assert r.states[j].reqs[t].phase.Cancelled?;
    assert k in Pending(r.states[j].reqs[t]);
  }

  /** Such a run, for any two requests in conflict: the first is cancelled while it waits, the second
      then waits behind it where nothing can move. */
  lemma CancelBlocksRun(first: map<Key, Mode>, second: map<Key, Mode>, k: Key) returns (r: Run)
    requires k in first && k in second
    ensures FromStart(r) && r.steps == [Accept(first), Cancel(0), Accept(second)]
    ensures var s := r.states[|r.steps|];
            && |s.reqs| == 2 && s.reqs[0].phase.Cancelled? && s.reqs[1].phase.Waiting?
            && Stuck(s.reqs, 1) && Quiescent(s)
  {
    r := Extend(Run([INITIAL], []), Accept(first));
    r := Extend(r, Cancel(0));
    r := Extend(r, Accept(second));
    var s := r.states[|r.steps|];
    assert s.reqs == [NewRequest(first).(phase := Cancelled), NewRequest(second)];
    Reachable(r, |r.steps|);
    assert k in s.reqs[0].modes.Keys && k in s.reqs[1].modes.Keys && Conflict(s.reqs[0], s.reqs[1]);
    assert Stuck(s.reqs, 1);
    NothingMoves(s, k);
  }

  lemma NothingMoves(s: State, k: Key)
    requires Inv(s) && |s.reqs| == 2 && s.reqs[0].phase.Cancelled? && s.reqs[1].phase.Waiting?
    requires k in s.reqs[0].modes && k in s.reqs[1].modes
    ensures Quiescent(s)
  {
    assert k in Pending(s.reqs[0]) && k in Pending(s.reqs[1]);
    if Started(s.queue, 1) {
      StartedMeans(s, 1);
    }
    forall a: Step | Productive(a) ensures !Enabled(s, a) {
    }
  }
}
