/** Runs in which only the newest request moves, step by step: what one call of the control does while
    everybody else stands still. */
module SoloRuns {
  import opened Basics
  import opened AcquireQueue
  import opened LockValues
  import opened Protocol
  import opened ProtocolQueue
  import opened ProtocolSafety
  import opened ProtocolRuns

  function Last(r: Run): State
    requires |r.states| == |r.steps| + 1
  {
    r.states[|r.steps|]
  }

  /** The run `r` goes on from `r0`; since then only the new request `q` has come and moved. */
  ghost predicate Solo(r0: Run, r: Run, q: Request, closed: set<Key>) {
    && FromStart(r0) && FromStart(r) && r0.steps <= r.steps
    && Last(r).reqs == Last(r0).reqs + [q] && Last(r).closed == closed
  }

  /** Its locks are all that the semaphores have gained. */
  lemma SoloCur(r0: Run, r: Run, q: Request, closed: set<Key>, k: Key)
    requires Solo(r0, r, q, closed)
    ensures Cur(Last(r), k) == Cur(Last(r0), k) + HeldWeight(q, k)
  {
    Reachable(r0, |r0.steps|);
    Reachable(r, |r.steps|);
    var others := Last(r0).reqs;
    assert Cur(Last(r0), k) == Total(others, k) && Cur(Last(r), k) == Total(others + [q], k);
    assert (others + [q])[..|others|] == others;
  }

  /** Once it wants no more keys the queue is what it was. */
  lemma SoloQueue(r0: Run, r: Run, q: Request, closed: set<Key>)
    requires Solo(r0, r, q, closed) && !Queued(q)
    ensures Last(r).queue == Last(r0).queue
  {
    Reachable(r0, |r0.steps|);
    Reachable(r, |r.steps|);
    var others := Last(r0).reqs;
    assert (others + [q])[..|others|] == others;
    assert Raw(others + [q]) == Raw(others);
    ExactUnique(Last(r).queue, Last(r0).queue);
  }

  /** One more step of the newest request. */
  lemma SoloStep(r0: Run, r: Run, q: Request, closed: set<Key>, a: Step, q': Request, closed': set<Key>) returns (r': Run)
    requires Solo(r0, r, q, closed) && Enabled(Last(r), a)
    requires Apply(Last(r), a).reqs == Last(r).reqs[|Last(r0).reqs| := q'] && Apply(Last(r), a).closed == closed'
    ensures Solo(r0, r', q', closed') && r'.steps == r.steps + [a] && Last(r') == Apply(Last(r), a)
  {
    r' := Extend(r, a);
    var others := Last(r0).reqs;
    assert (others + [q])[|others| := q'] == others + [q'];
  }

  // ----- the lock phase

  lemma GateStep(r0: Run, r: Run, q: Request, closed: set<Key>, k: Key) returns (r': Run)
    requires Solo(r0, r, q, closed) && q.phase.Locking? && k in q.modes && k in q.states && q.states[k].AtGate?
    ensures Solo(r0, r', q.(states := q.states[k := if k in closed then Passing else Winning]), closed + {k})
  {
    var t := |Last(r0).reqs|;
    Reachable(r, |r.steps|);
    assert Last(r).reqs[t] == q;
    GateUncontended(Last(r), t, k);
    assert k in closed ==> closed + {k} == closed;
    r' := SoloStep(r0, r, q, closed, EnterGate(t, k), q.(states := q.states[k := if k in closed then Passing else Winning]), closed + {k});
  }

  lemma GrantStep(r0: Run, r: Run, q: Request, closed: set<Key>, k: Key) returns (r': Run)
    requires Solo(r0, r, q, closed) && q.phase.Locking? && k in q.modes && k in q.states
    requires q.states[k].Winning? || q.states[k].Passing?
    requires MAX - Cur(Last(r0), k) >= Weight(NewLock(q.modes[k], q.states[k].Winning?))
    ensures Solo(r0, r', q.(states := q.states[k := Held(NewLock(q.modes[k], q.states[k].Winning?), Unset)]), closed)
  {
    var t, l := |Last(r0).reqs|, NewLock(q.modes[k], q.states[k].Winning?);
    SoloCur(r0, r, q, closed, k);
    assert Last(r).reqs[t] == q;
    var q1 := q.(states := q.states[k := Locked(l)]);
    r' := SoloStep(r0, r, q, closed, Grant(t, k), q1, closed);
    assert Last(r').reqs[t] == q1;
    assert q1.states[k := Held(l, Unset)] == q.states[k := Held(l, Unset)];
    r' := SoloStep(r0, r', q1, closed, Notify(t, k), q.(states := q.states[k := Held(l, Unset)]), closed);
  }

  lemma RefuseStep(r0: Run, r: Run, q: Request, closed: set<Key>, k: Key) returns (r': Run)
    requires Solo(r0, r, q, closed) && q.phase.Locking? && k in q.modes && k in q.states
    requires q.states[k].Winning? || q.states[k].Passing?
    ensures Solo(r0, r', q.(states := q.states[k := Refused]), if q.states[k].Winning? then closed - {k} else closed)
  {
    var t := |Last(r0).reqs|;
    assert Last(r).reqs[t] == q;
    r' := SoloStep(r0, r, q, closed, Refuse(t, k), q.(states := q.states[k := Refused]), if q.states[k].Winning? then closed - {k} else closed);
  }

  /** One key of the lock phase: through the gate if init is asked for, then granted or refused. */
  lemma TakeStep(r0: Run, r: Run, q: Request, closed: set<Key>, k: Key, refused: bool) returns (r': Run)
    requires Solo(r0, r, q, closed) && q.phase.Locking? && k in q.modes && k in q.states && q.states[k] == Entering(q.modes[k])
    requires !refused ==> MAX - Cur(Last(r0), k) >= Weight(NewLock(q.modes[k], q.modes[k].init && k !in closed))
    ensures var won := q.modes[k].init && k !in closed;
            Solo(r0, r', q.(states := q.states[k := if refused then Refused else Held(NewLock(q.modes[k], won), Unset)]),
                 if won && !refused then closed + {k} else closed)
  {
    r' := r;
    var q1, closed1 := q, closed;
    if q.modes[k].init {
      r' := GateStep(r0, r, q, closed, k);
      q1, closed1 := q.(states := q.states[k := if k in closed then Passing else Winning]), closed + {k};
    }
    var end := if refused then Refused else Held(NewLock(q.modes[k], q1.states[k].Winning?), Unset);
    assert q1.states[k := end] == q.states[k := end];
    assert k in closed ==> closed + {k} == closed;
    assert k !in closed ==> closed + {k} - {k} == closed;
    if refused {
      r' := RefuseStep(r0, r', q1, closed1, k);
    } else {
      r' := GrantStep(r0, r', q1, closed1, k);
    }
  }

  /** The key states of a lock phase that has dealt with the keys in `done`; those in `refused` fail,
      `was` are the gates shut before it. */
  function LockStates(m: map<Key, Mode>, refused: set<Key>, was: set<Key>, done: set<Key>): map<Key, KeyState> {
    map k | k in m ::
      if k !in done then Entering(m[k])
      else if k in refused then Refused
      else Held(NewLock(m[k], m[k].init && k !in was), Unset)
  }

  function ShutBy(m: map<Key, Mode>, refused: set<Key>, was: set<Key>, done: set<Key>): set<Key> {
    was + set k | k in m && k in done && m[k].init && k !in refused
  }

  predicate Room(s: State, m: map<Key, Mode>, was: set<Key>, k: Key)
    requires k in m
  {
    MAX - Cur(s, k) >= Weight(NewLock(m[k], m[k].init && k !in was))
  }

  lemma OneMoreLocked(m: map<Key, Mode>, refused: set<Key>, was: set<Key>, done: set<Key>, k: Key)
    requires k in m && k !in done
    ensures var won, closed := m[k].init && k !in ShutBy(m, refused, was, done), ShutBy(m, refused, was, done);
            && (won <==> m[k].init && k !in was)
            && LockStates(m, refused, was, done)[k := if k in refused then Refused else Held(NewLock(m[k], won), Unset)] ==
               LockStates(m, refused, was, done + {k})
            && (if won && k !in refused then closed + {k} else closed) == ShutBy(m, refused, was, done + {k})
  {
  }

  /** The whole lock phase. */
  lemma {:induction false} LockEach(r0: Run, r: Run, m: map<Key, Mode>, refused: set<Key>, was: set<Key>, done: set<Key>) returns (r': Run)
    requires Solo(r0, r, Request(m, Locking, LockStates(m, refused, was, done)), ShutBy(m, refused, was, done)) && done <= m.Keys
    requires forall k :: k in m && k !in refused ==> Room(Last(r0), m, was, k)
    ensures Solo(r0, r', Request(m, Locking, LockStates(m, refused, was, m.Keys)), ShutBy(m, refused, was, m.Keys))
    decreases m.Keys - done
  {
    if m.Keys - done == {} {
      forall k | k in m.Keys ensures k in done {
        assert k !in m.Keys - done;
      }
      assert done == m.Keys;
      r' := r;
    } else {
      var k :| k in m.Keys - done;
      OneMoreLocked(m, refused, was, done, k);
      assert k !in refused ==> Room(Last(r0), m, was, k);
      r' := TakeStep(r0, r, Request(m, Locking, LockStates(m, refused, was, done)), ShutBy(m, refused, was, done), k, k in refused);
      r' := LockEach(r0, r', m, refused, was, done + {k});
    }
  }

  /** Arrival, start and lock phase of a request that is in conflict with nobody. */
  lemma Arrive(r0: Run, m: map<Key, Mode>, refused: set<Key>) returns (r: Run)
    requires FromStart(r0) && m.Keys !! KeysOf(Last(r0).queue)
    requires forall k :: k in m && k !in refused ==> Room(Last(r0), m, Last(r0).closed, k)
    ensures var was := Last(r0).closed;
            Solo(r0, r, Request(m, Locking, LockStates(m, refused, was, m.Keys)), ShutBy(m, refused, was, m.Keys))
  {
    var was, t := Last(r0).closed, |Last(r0).reqs|;
    r := Accepted1(r0, m);
    Reachable(r, |r.steps|);
    StartsAlone(r0, r, m);
    assert Last(r).reqs[t] == NewRequest(m);
    r := SoloStep(r0, r, NewRequest(m), was, Begin(t), NewRequest(m).(phase := Locking), was);
    assert NewRequest(m).states == LockStates(m, refused, was, {}) && ShutBy(m, refused, was, {}) == was;
    r := LockEach(r0, r, m, refused, was, {});
  }

  lemma Accepted1(r0: Run, m: map<Key, Mode>) returns (r: Run)
    requires FromStart(r0)
    ensures Solo(r0, r, NewRequest(m), Last(r0).closed) && Last(r).queue == Accepted(Last(r0).queue, |Last(r0).reqs|, m.Keys)
  {
    r := Extend(r0, Accept(m));
  }

  lemma StartsAlone(r0: Run, r: Run, m: map<Key, Mode>)
    requires FromStart(r0) && Solo(r0, r, NewRequest(m), Last(r0).closed)
    requires Last(r).queue == Accepted(Last(r0).queue, |Last(r0).reqs|, m.Keys)
    ensures Started(Last(r).queue, |Last(r0).reqs|) <==> m.Keys !! KeysOf(Last(r0).queue)
  {
    var q, t := Last(r0).queue, |Last(r0).reqs|;
    Reachable(r0, |r0.steps|);
    RawOrdered(Last(r0).reqs);
    forall i | 0 <= i < |q| ensures q[i].ticket < t {
      RawEntry(Last(r0).reqs, i);
    }
    AcceptedStarts(q, t, m.Keys);
  }

  // ----- giving everything back

  /** The locks not in `todo` are free or were refused. */
  ghost predicate Clears(q: Request, todo: set<Key>) {
    && Clearing(q.phase) && q.states.Keys == q.modes.Keys && todo <= q.modes.Keys
    && forall k :: k in q.states ==> if k in todo then q.states[k].Held? else Over(q.states[k])
  }

  /** The request is finished and holds nothing. */
  ghost predicate Finished(q: Request, m: map<Key, Mode>) {
    q.modes == m && q.phase.Done? && forall k :: HeldWeight(q, k) == 0
  }

  lemma {:induction false} UnlockEach(r0: Run, r: Run, q: Request, closed: set<Key>, todo: set<Key>) returns (r': Run, q': Request)
    requires Solo(r0, r, q, closed) && Clears(q, todo)
    ensures Solo(r0, r', q', closed) && Finished(q', q.modes)
    decreases todo
  {
    var t := |Last(r0).reqs|;
    assert Last(r).reqs[t] == q;
    if todo == {} {
      q' := q.(phase := Done);
      r' := SoloStep(r0, r, q, closed, Finish(t), q', closed);
    } else {
      var k :| k in todo;
      var q1 := q.(states := q.states[k := Freed]);
      r' := SoloStep(r0, r, q, closed, Unlock(t, k), q1, closed);
      r', q' := UnlockEach(r0, r', q1, closed, todo - {k});
    }
  }

  /** A lock phase with a refused key: rollback. */
  lemma RollBack(r0: Run, r: Run, m: map<Key, Mode>, refused: set<Key>, was: set<Key>, closed: set<Key>) returns (r': Run, q': Request)
    requires Solo(r0, r, Request(m, Locking, LockStates(m, refused, was, m.Keys)), closed)
    requires refused <= m.Keys && refused != {}
    ensures Solo(r0, r', q', closed) && Finished(q', m)
  {
    var t, q := |Last(r0).reqs|, Request(m, Locking, LockStates(m, refused, was, m.Keys));
    assert Last(r).reqs[t] == q;
    var k :| k in refused;
    assert q.states[k].Refused?;
    r' := SoloStep(r0, r, q, closed, Join(t), q.(phase := Undoing), closed);
    r', q' := UnlockEach(r0, r', q.(phase := Undoing), closed, m.Keys - refused);
  }

  // ----- the init loop

  /** The key states of an init loop: `won` are the gates won, `good` and `bad` those already reported
      as succeeded and as failed. */
  function InitStates(m: map<Key, Mode>, won: set<Key>, good: set<Key>, bad: set<Key>): map<Key, KeyState> {
    map k | k in m ::
      var l := NewLock(m[k], k in won);
      if k in good then Held(WithResult(l, true), Succeeded)
      else if k in bad then Held(WithResult(l, false), Failed)
      else Held(l, Unset)
  }

  function Initialising(m: map<Key, Mode>, won: set<Key>, good: set<Key>, bad: set<Key>): Request {
    Request(m, Initing(bad != {}), InitStates(m, won, good, bad))
  }

  /** An init runs; it is the first to fail unless it succeeds. */
  lemma RunInit(r0: Run, r: Run, m: map<Key, Mode>, won: set<Key>, good: set<Key>, closed: set<Key>, k: Key, ok: bool) returns (r': Run)
    requires Solo(r0, r, Initialising(m, won, good, {}), closed) && k in m && k in won && k !in good
    ensures Solo(r0, r', Initialising(m, won, if ok then good + {k} else good, if ok then {} else {k}), if ok then closed else closed - {k})
  {
    var t, q := |Last(r0).reqs|, Initialising(m, won, good, {});
    var l := NewLock(m[k], true);
    assert Last(r).reqs[t] == q && q.states[k] == Held(l, Unset);
    var q1 := q.(states := q.states[k := Held(l, Running)]);
    r' := SoloStep(r0, r, q, closed, StartInit(t, k), q1, closed);
    assert Last(r').reqs[t] == q1;
    var q2 := Initialising(m, won, if ok then good + {k} else good, if ok then {} else {k});
    assert q2.states == q1.states[k := Held(WithResult(l, ok), if ok then Succeeded else Failed)];
    r' := SoloStep(r0, r', q1, closed, EndInit(t, k, ok), q2, if ok then closed else closed - {k});
  }

  /** An init is skipped after a failure. */
  lemma SkipOne(r0: Run, r: Run, m: map<Key, Mode>, won: set<Key>, good: set<Key>, bad: set<Key>, closed: set<Key>, k: Key) returns (r': Run)
    requires Solo(r0, r, Initialising(m, won, good, bad), closed) && bad != {} && k in m && k in won && k !in good && k !in bad
    ensures Solo(r0, r', Initialising(m, won, good, bad + {k}), closed - {k})
  {
    var t, q := |Last(r0).reqs|, Initialising(m, won, good, bad);
    var l := NewLock(m[k], true);
    assert Last(r).reqs[t] == q && q.states[k] == Held(l, Unset);
    var q2 := Initialising(m, won, good, bad + {k});
    assert q2.states == q.states[k := Held(WithResult(l, false), Failed)];
    r' := SoloStep(r0, r, q, closed, SkipInit(t, k), q2, closed - {k});
  }

  /** The gates that a request can win. */
  function WonOf(m: map<Key, Mode>, was: set<Key>): set<Key> {
    set k | k in m && m[k].init && k !in was
  }

  /** From a lock phase without a refused key to the init loop. */
  lemma JoinStep(r0: Run, r: Run, m: map<Key, Mode>, was: set<Key>) returns (r': Run)
    requires Solo(r0, r, Request(m, Locking, LockStates(m, {}, was, m.Keys)), ShutBy(m, {}, was, m.Keys))
    ensures Solo(r0, r', Initialising(m, WonOf(m, was), {}, {}), was + WonOf(m, was))
  {
    var t, q := |Last(r0).reqs|, Request(m, Locking, LockStates(m, {}, was, m.Keys));
    assert Last(r).reqs[t] == q;
    assert ShutBy(m, {}, was, m.Keys) == was + WonOf(m, was);
    assert q.states == InitStates(m, WonOf(m, was), {}, {});
    r' := SoloStep(r0, r, q, was + WonOf(m, was), Join(t), Initialising(m, WonOf(m, was), {}, {}), was + WonOf(m, was));
  }

  /** The end of the init loop: the locks are handed over, or all given back after a failure. */
  lemma ReturnStep(r0: Run, r: Run, m: map<Key, Mode>, won: set<Key>, good: set<Key>, bad: set<Key>, closed: set<Key>)
      returns (r': Run, q': Request)
    requires Solo(r0, r, Initialising(m, won, good, bad), closed) && won <= good + bad
    ensures Solo(r0, r', q', closed)
    ensures if bad == {} then q' == Initialising(m, won, good, bad).(phase := Using) else Finished(q', m)
  {
    var t, q := |Last(r0).reqs|, Initialising(m, won, good, bad);
    assert Last(r).reqs[t] == q;
    q' := q.(phase := if bad != {} then Releasing else Using);
    r' := SoloStep(r0, r, q, closed, Return(t), q', closed);
    if bad != {} {
      r', q' := UnlockEach(r0, r', q', closed, m.Keys);
    }
  }

  /** A request that gives up while it waits. */
  lemma GiveUp(r0: Run, m: map<Key, Mode>) returns (r: Run)
    requires FromStart(r0)
    ensures Solo(r0, r, NewRequest(m).(phase := Cancelled), Last(r0).closed)
    ensures Last(r).queue == Accepted(Last(r0).queue, |Last(r0).reqs|, m.Keys)
  {
    var t := |Last(r0).reqs|;
    r := Accepted1(r0, m);
    assert Last(r).reqs[t] == NewRequest(m);
    r := SoloStep(r0, r, NewRequest(m), Last(r0).closed, Cancel(t), NewRequest(m).(phase := Cancelled), Last(r0).closed);
  }

  /** A request without keys is handed its empty set of locks and stays queued. */
  lemma NoKeys(r0: Run) returns (r: Run)
    requires FromStart(r0)
    ensures Solo(r0, r, Request(map[], Using, map[]), Last(r0).closed)
    ensures Last(r).queue == Accepted(Last(r0).queue, |Last(r0).reqs|, {})
  {
    var t, closed, q := |Last(r0).reqs|, Last(r0).closed, Request(map[], Waiting, map[]);
    assert q.modes.Keys == {} && NewRequest(q.modes) == q;
    r := Accepted1(r0, q.modes);
    StartsAlone(r0, r, q.modes);
    assert Last(r).reqs[t] == q;
    r := SoloStep(r0, r, q, closed, Begin(t), q.(phase := Locking), closed);
    assert Last(r).reqs[t] == q.(phase := Locking);
    r := SoloStep(r0, r, q.(phase := Locking), closed, Join(t), q.(phase := Initing(false)), closed);
    assert Last(r).reqs[t] == q.(phase := Initing(false));
    r := SoloStep(r0, r, q.(phase := Initing(false)), closed, Return(t), q.(phase := Using), closed);
  }
}
