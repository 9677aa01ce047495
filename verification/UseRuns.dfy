/** The control's call on the real objects, run while nobody else moves, is a run of the protocol: it
    leaves the objects as the steps of its request leave the protocol's state. */
module UseRuns {
  import opened Basics
  import opened AcquireQueue
  import opened LockValues
  import opened LockObjects
  import opened Lockers
  import opened Controls
  import Protocol
  import opened ProtocolQueue
  import opened ProtocolSafety
  import opened SoloRuns

  /** The objects hold what the state says. */
  ghost predicate Mirrors(sem: map<Key, int>, closed: set<Key>, queue: seq<Entry>, next: nat, s: Protocol.State) {
    && s.queue == queue && |s.reqs| == next && s.closed == closed
    && forall k :: At(sem, k) == Protocol.Cur(s, k)
  }

  function ModeMap(names: seq<Key>, modes: seq<Mode>): map<Key, Mode>
    requires |names| == |modes| && Distinct(names)
  {
    map j | 0 <= j < |names| :: names[j] := modes[j]
  }

  lemma ModeMapIs(names: seq<Key>, modes: seq<Mode>)
    requires |names| == |modes| && Distinct(names)
    ensures ModeMap(names, modes).Keys == Elements(names)
    ensures forall j :: 0 <= j < |names| ==> names[j] in ModeMap(names, modes) && ModeMap(names, modes)[names[j]] == modes[j]
  {
  }

  // ----- the init loop in the control's order

  /** The winners among the first `n` names that come before, and not before, the first failure `f`. */
  function Good(won: set<Key>, names: seq<Key>, f: nat, n: nat): set<Key>
    requires f <= |names| && n <= |names|
  {
    won * Elements(names[..n]) * Elements(names[..f])
  }

  function Bad(won: set<Key>, names: seq<Key>, f: nat, n: nat): set<Key>
    requires f <= |names| && n <= |names|
  {
    won * Elements(names[..n]) - Elements(names[..f])
  }

  lemma InPrefix(names: seq<Key>, n: nat, j: nat)
    requires Distinct(names) && n <= |names| && j < |names|
    ensures names[j] in Elements(names[..n]) <==> j < n
  {
    assert j < n ==> names[..n][j] == names[j];
  }

  lemma OneMoreName(won: set<Key>, names: seq<Key>, f: nat, n: nat)
    requires Distinct(names) && f <= |names| && n < |names|
    ensures var k := names[n];
            && k !in Good(won, names, f, n) && k !in Bad(won, names, f, n)
            && Good(won, names, f, n + 1) == (if k in won && n < f then Good(won, names, f, n) + {k} else Good(won, names, f, n))
            && Bad(won, names, f, n + 1) == (if k in won && n >= f then Bad(won, names, f, n) + {k} else Bad(won, names, f, n))
  {
    InPrefix(names, n, n);
    InPrefix(names, f, n);
    assert names[..n + 1] == names[..n] + [names[n]];
  }

  lemma BadYet(won: set<Key>, names: seq<Key>, f: nat, n: nat)
    requires Distinct(names) && f <= |names| && n <= |names| && (f < |names| ==> names[f] in won)
    ensures Bad(won, names, f, n) != {} <==> f < n
  {
    if f < n {
      InPrefix(names, n, f);
      InPrefix(names, f, f);
      assert names[f] in Bad(won, names, f, n);
    } else {
      forall k ensures k !in Bad(won, names, f, n) {
        if k in names[..n] {
          var j :| 0 <= j < n && names[..n][j] == k;
          InPrefix(names, f, j);
        }
      }
    }
  }

  ghost predicate AtName(r0: Protocol.Run, r: Protocol.Run, m: map<Key, Mode>, won: set<Key>, closed: set<Key>, names: seq<Key>, f: nat, n: nat)
    requires f <= |names| && n <= |names|
  {
    Solo(r0, r, Initialising(m, won, Good(won, names, f, n), Bad(won, names, f, n)), closed - Bad(won, names, f, n))
  }

  lemma InitName(r0: Protocol.Run, r: Protocol.Run, m: map<Key, Mode>, won: set<Key>, closed: set<Key>, names: seq<Key>, f: nat, n: nat)
      returns (r': Protocol.Run)
    requires Distinct(names) && f <= |names| && n < |names| && (f < |names| ==> names[f] in won) && names[n] in m
    requires AtName(r0, r, m, won, closed, names, f, n)
    ensures AtName(r0, r', m, won, closed, names, f, n + 1)
  {
    var k, good, bad := names[n], Good(won, names, f, n), Bad(won, names, f, n);
    OneMoreName(won, names, f, n);
    BadYet(won, names, f, n);
    r' := r;
    if k in won {
      if n <= f {
        assert bad == {} && bad + {k} == {k};
        r' := RunInit(r0, r, m, won, good, closed - bad, k, n < f);
      } else {
        r' := SkipOne(r0, r, m, won, good, bad, closed - bad, k);
      }
      assert closed - bad - {k} == closed - (bad + {k});
    }
  }

  lemma {:induction false} InitEach(r0: Protocol.Run, r: Protocol.Run, m: map<Key, Mode>, won: set<Key>, closed: set<Key>, names: seq<Key>, f: nat, n: nat)
      returns (r': Protocol.Run)
    requires Distinct(names) && f <= |names| && n <= |names| && (f < |names| ==> names[f] in won) && (forall j :: 0 <= j < |names| ==> names[j] in m)
    requires AtName(r0, r, m, won, closed, names, f, n)
    ensures AtName(r0, r', m, won, closed, names, f, |names|)
    decreases |names| - n
  {
    r' := r;
    if n < |names| {
      r' := InitName(r0, r, m, won, closed, names, f, n);
      r' := InitEach(r0, r', m, won, closed, names, f, n + 1);
    }
  }

  // ----- a whole call

  lemma AllReported(won: set<Key>, names: seq<Key>, f: nat)
    requires won <= Elements(names) && f <= |names|
    ensures won <= Good(won, names, f, |names|) + Bad(won, names, f, |names|)
  {
    assert names[..|names|] == names;
  }

  /** The run of a request that is granted all its locks, `f` being the first init to fail. */
  lemma GrantedRun(r0: Protocol.Run, m: map<Key, Mode>, names: seq<Key>, f: nat) returns (r: Protocol.Run, q: Protocol.Request)
    requires Protocol.FromStart(r0) && Distinct(names) && Elements(names) == m.Keys && m.Keys !! KeysOf(Last(r0).queue)
    requires forall k :: k in m ==> Room(Last(r0), m, Last(r0).closed, k)
    requires f <= |names| && (f < |names| ==> names[f] in WonOf(m, Last(r0).closed))
    ensures var was, won := Last(r0).closed, WonOf(m, Last(r0).closed);
            && Solo(r0, r, q, was + won - Bad(won, names, f, |names|))
            && (if f == |names| then q == Initialising(m, won, Good(won, names, f, f), {}).(phase := Protocol.Using) else Finished(q, m))
  {
    var was, won := Last(r0).closed, WonOf(m, Last(r0).closed);
    r := Arrive(r0, m, {});
    r := JoinStep(r0, r, m, was);
    assert names[..0] == [] && Good(won, names, f, 0) == {} && Bad(won, names, f, 0) == {};
    assert was + won - {} == was + won;
    forall j | 0 <= j < |names| ensures names[j] in m {
      assert names[j] in Elements(names);
    }
    r := InitEach(r0, r, m, won, was + won, names, f, 0);
    AllReported(won, names, f);
    BadYet(won, names, f, |names|);
    r, q := ReturnStep(r0, r, m, won, Good(won, names, f, |names|), Bad(won, names, f, |names|), was + won - Bad(won, names, f, |names|));
  }

  /** How the request stands in the protocol after the call. */
  predicate Ended(res: UseResult, p: Protocol.Phase) {
    match res
    case InUse => p.Using?
    case LockFailed(v) => if v.GaveUp? then p.Cancelled? else p.Done?
    case InitFailed(_) => p.Done?
  }

  /** Weights and queue follow from the request alone. */
  lemma MirrorsAfter(r0: Protocol.Run, r: Protocol.Run, q: Protocol.Request, closed: set<Key>,
                     sem0: map<Key, int>, queue0: seq<Entry>, sem: map<Key, int>, queue: seq<Entry>, next: nat)
    requires Solo(r0, r, q, closed) && Mirrors(sem0, Last(r0).closed, queue0, next, Last(r0))
    requires forall k :: At(sem, k) == At(sem0, k) + HeldWeight(q, k)
    requires if Queued(q) then Last(r).queue == queue else queue == queue0
    ensures Mirrors(sem, closed, queue, next + 1, Last(r))
  {
    forall k ensures At(sem, k) == Protocol.Cur(Last(r), k) {
      SoloCur(r0, r, q, closed, k);
    }
    if !Queued(q) {
      SoloQueue(r0, r, q, closed);
    }
  }

  /** The run of a request that is refused a key: its rollback leaves shut the gates its others won. */
  lemma RefusedRun(r0: Protocol.Run, m: map<Key, Mode>, cancelled: set<Key>, sem0: map<Key, int>, closed: set<Key>)
      returns (r: Protocol.Run, q: Protocol.Request)
    requires Protocol.FromStart(r0) && m.Keys !! KeysOf(Last(r0).queue) && (forall k :: At(sem0, k) == Protocol.Cur(Last(r0), k))
    requires exists k :: k in m && Refuses(k, m[k], cancelled, sem0, Last(r0).closed)
    requires forall k :: k in m ==> GateAfter(closed, k, m[k], cancelled, sem0, Last(r0).closed)
    requires forall k :: k !in m ==> (k in closed <==> k in Last(r0).closed)
    ensures Solo(r0, r, q, closed) && Finished(q, m)
  {
    var was := Last(r0).closed;
    var refused := set k | k in m && Refuses(k, m[k], cancelled, sem0, was);
    var k :| k in m && Refuses(k, m[k], cancelled, sem0, was);
    assert k in refused;
    assert ShutBy(m, refused, was, m.Keys) == closed;
    r := Arrive(r0, m, refused);
    r, q := RollBack(r0, r, m, refused, was, closed);
  }

  lemma FailureWins(names: seq<Key>, modes: seq<Mode>, was: set<Key>, outcome: seq<Option<string>>)
    requires |names| == |modes| == |outcome| && Distinct(names)
    ensures var f, m := FirstFailure(Winners(names, modes, was), outcome), ModeMap(names, modes);
            f <= |names| && (f < |names| ==> names[f] in WonOf(m, was) && outcome[f].Some?)
  {
    ModeMapIs(names, modes);
  }

  /** The gates after the init loop, as the call's contract has them. */
  lemma GatesAfter(names: seq<Key>, modes: seq<Mode>, was: set<Key>, f: nat, closed: set<Key>)
    requires |names| == |modes| && Distinct(names) && f <= |names|
    requires forall j :: 0 <= j < |names| ==> (names[j] in closed <==> names[j] in was || (Wins(modes[j], names[j], was) && j < f))
    requires forall k :: k !in names ==> (k in closed <==> k in was)
    ensures var won := WonOf(ModeMap(names, modes), was); closed == was + won - Bad(won, names, f, |names|)
  {
    var m := ModeMap(names, modes);
    var won := WonOf(m, was);
    ModeMapIs(names, modes);
    assert names[..|names|] == names;
    forall k ensures k in closed <==> k in was + won - Bad(won, names, f, |names|) {
      if k in names {
        var j :| 0 <= j < |names| && names[j] == k;
        InPrefix(names, f, j);
        assert k in won <==> Wins(modes[j], k, was);
      } else {
        assert k !in Elements(names);
      }
    }
  }

  /** The weight of the locks handed over. */
  lemma UsedWeights(m: map<Key, Mode>, won: set<Key>, names: seq<Key>, k: Key)
    requires won <= m.Keys && m.Keys == Elements(names)
    ensures var q := Initialising(m, won, Good(won, names, |names|, |names|), {}).(phase := Protocol.Using);
            HeldWeight(q, k) == if k !in m then 0 else if m[k].exclusive then MAX else 1
  {
    assert names[..|names|] == names;
    assert k in won ==> k in Good(won, names, |names|, |names|);
  }

  /** The objects, holding these values after the call, mirror a run that goes on from `r0` with the
      steps of one new request. */
  ghost predicate AsRun(r0: Protocol.Run, r: Protocol.Run, m: map<Key, Mode>, res: UseResult, sem: map<Key, int>, closed: set<Key>, queue: seq<Entry>) {
    && Protocol.FromStart(r0) && Protocol.FromStart(r) && r0.steps <= r.steps
    && var t := |Last(r0).reqs|;
    && Mirrors(sem, closed, queue, t + 1, Last(r))
    && Last(r).reqs[..t] == Last(r0).reqs && Last(r).reqs[t].modes == m && Ended(res, Last(r).reqs[t].phase)
  }

  lemma SoloIsRun(r0: Protocol.Run, r: Protocol.Run, q: Protocol.Request, res: UseResult, closed: set<Key>,
                  sem0: map<Key, int>, queue0: seq<Entry>, sem: map<Key, int>, queue: seq<Entry>)
    requires Solo(r0, r, q, closed) && Mirrors(sem0, Last(r0).closed, queue0, |Last(r0).reqs|, Last(r0))
    requires forall k :: At(sem, k) == At(sem0, k) + HeldWeight(q, k)
    requires if Queued(q) then Last(r).queue == queue else queue == queue0
    requires Ended(res, q.phase)
    ensures AsRun(r0, r, q.modes, res, sem, closed, queue)
  {
    MirrorsAfter(r0, r, q, closed, sem0, queue0, sem, queue, |Last(r0).reqs|);
    assert Last(r).reqs[..|Last(r0).reqs|] == Last(r0).reqs;
  }

  lemma GaveUpCase(r0: Protocol.Run, m: map<Key, Mode>, sem0: map<Key, int>, queue0: seq<Entry>, sem: map<Key, int>, queue: seq<Entry>)
      returns (r: Protocol.Run)
    requires Protocol.FromStart(r0) && Mirrors(sem0, Last(r0).closed, queue0, |Last(r0).reqs|, Last(r0))
    requires (forall k :: At(sem, k) == At(sem0, k)) && queue == Accepted(queue0, |Last(r0).reqs|, m.Keys)
    ensures AsRun(r0, r, m, LockFailed(GaveUp), sem, Last(r0).closed, queue)
  {
    r := GiveUp(r0, m);
    SoloIsRun(r0, r, Protocol.NewRequest(m).(phase := Protocol.Cancelled), LockFailed(GaveUp), Last(r0).closed, sem0, queue0, sem, queue);
  }

  lemma EmptyCase(r0: Protocol.Run, sem0: map<Key, int>, queue0: seq<Entry>, sem: map<Key, int>, queue: seq<Entry>)
      returns (r: Protocol.Run)
    requires Protocol.FromStart(r0) && Mirrors(sem0, Last(r0).closed, queue0, |Last(r0).reqs|, Last(r0))
    requires (forall k :: At(sem, k) == At(sem0, k)) && queue == Accepted(queue0, |Last(r0).reqs|, {})
    ensures AsRun(r0, r, map[], InUse, sem, Last(r0).closed, queue)
  {
    r := NoKeys(r0);
    SoloIsRun(r0, r, Protocol.Request(map[], Protocol.Using, map[]), InUse, Last(r0).closed, sem0, queue0, sem, queue);
  }

  lemma RefusedCase(r0: Protocol.Run, m: map<Key, Mode>, cancelled: set<Key>, sem0: map<Key, int>, queue0: seq<Entry>, sem: map<Key, int>, closed: set<Key>)
      returns (r: Protocol.Run)
    requires Protocol.FromStart(r0) && Mirrors(sem0, Last(r0).closed, queue0, |Last(r0).reqs|, Last(r0)) && m.Keys !! KeysOf(queue0)
    requires exists k :: k in m && Refuses(k, m[k], cancelled, sem0, Last(r0).closed)
    requires forall k :: k in m ==> GateAfter(closed, k, m[k], cancelled, sem0, Last(r0).closed)
    requires forall k :: k !in m ==> (k in closed <==> k in Last(r0).closed)
    requires forall k :: At(sem, k) == At(sem0, k)
    ensures AsRun(r0, r, m, LockFailed(Failed), sem, closed, queue0)
  {
    var q;
    r, q := RefusedRun(r0, m, cancelled, sem0, closed);
    var k :| k in m && Refuses(k, m[k], cancelled, sem0, Last(r0).closed);
    assert k in q.modes.Keys;
    SoloIsRun(r0, r, q, LockFailed(Failed), closed, sem0, queue0, sem, queue0);
  }

  /** The weights after a call that was granted its locks. */
  predicate WeightAfter(sem0: map<Key, int>, sem: map<Key, int>, m: map<Key, Mode>, used: bool, k: Key) {
    At(sem, k) == At(sem0, k) + if !used || k !in m then 0 else if m[k].exclusive then MAX else 1
  }

  lemma GrantedCase(r0: Protocol.Run, names: seq<Key>, modes: seq<Mode>, f: nat, res: UseResult,
                    sem0: map<Key, int>, queue0: seq<Entry>, sem: map<Key, int>, closed: set<Key>) returns (r: Protocol.Run)
    requires Protocol.FromStart(r0) && Mirrors(sem0, Last(r0).closed, queue0, |Last(r0).reqs|, Last(r0))
    requires |names| == |modes| && Distinct(names) && names != [] && Elements(names) !! KeysOf(queue0)
    requires forall k :: k in ModeMap(names, modes) ==> Room(Last(r0), ModeMap(names, modes), Last(r0).closed, k)
    requires f <= |names| && (f < |names| ==> names[f] in WonOf(ModeMap(names, modes), Last(r0).closed))
    requires closed == Last(r0).closed + WonOf(ModeMap(names, modes), Last(r0).closed) - Bad(WonOf(ModeMap(names, modes), Last(r0).closed), names, f, |names|)
    requires (res.InUse? && f == |names|) || (res.InitFailed? && f < |names|)
    requires forall k :: WeightAfter(sem0, sem, ModeMap(names, modes), res.InUse?, k)
    ensures AsRun(r0, r, ModeMap(names, modes), res, sem, closed, queue0)
  {
    var m := ModeMap(names, modes);
    ModeMapIs(names, modes);
    var q;
    r, q := GrantedRun(r0, m, names, f);
    WeightsAre(m, q, WonOf(m, Last(r0).closed), names, f, sem0, sem, res.InUse?);
    assert names[0] in m.Keys && q.modes == m && Ended(res, q.phase) && !Queued(q);
    SoloIsRun(r0, r, q, res, closed, sem0, queue0, sem, queue0);
  }

  lemma WeightsAre(m: map<Key, Mode>, q: Protocol.Request, won: set<Key>, names: seq<Key>, f: nat, sem0: map<Key, int>, sem: map<Key, int>, used: bool)
    requires won <= m.Keys && m.Keys == Elements(names) && f <= |names| && (used <==> f == |names|)
    requires if f == |names| then q == Initialising(m, won, Good(won, names, f, f), {}).(phase := Protocol.Using) else Finished(q, m)
    requires forall k :: WeightAfter(sem0, sem, m, used, k)
    ensures forall k :: At(sem, k) == At(sem0, k) + HeldWeight(q, k)
  {
    forall k ensures At(sem, k) == At(sem0, k) + HeldWeight(q, k) {
      assert WeightAfter(sem0, sem, m, used, k);
      if f == |names| {
        UsedWeights(m, won, names, k);
      }
    }
  }

  lemma RoomForAll(names: seq<Key>, modes: seq<Mode>, cancelled: set<Key>, sem0: map<Key, int>, s: Protocol.State)
    requires |names| == |modes| && Distinct(names) && forall k :: At(sem0, k) == Protocol.Cur(s, k)
    requires forall j :: 0 <= j < |names| ==> !Refuses(names[j], modes[j], cancelled, sem0, s.closed)
    ensures forall k :: k in ModeMap(names, modes) ==> Room(s, ModeMap(names, modes), s.closed, k)
  {
    ModeMapIs(names, modes);
    forall k | k in ModeMap(names, modes) ensures Room(s, ModeMap(names, modes), s.closed, k) {
      var j :| 0 <= j < |names| && names[j] == k;
      assert !Refuses(names[j], modes[j], cancelled, sem0, s.closed);
    }
  }

  /** What the contract says name by name, said of the map of modes. */
  lemma RefusedByName(names: seq<Key>, modes: seq<Mode>, cancelled: set<Key>, sem0: map<Key, int>, was: set<Key>, closed: set<Key>)
    requires |names| == |modes| && Distinct(names)
    requires forall j :: 0 <= j < |names| ==> GateAfter(closed, names[j], modes[j], cancelled, sem0, was)
    requires exists j :: 0 <= j < |names| && Refuses(names[j], modes[j], cancelled, sem0, was)
    ensures var m := ModeMap(names, modes);
            && (exists k :: k in m && Refuses(k, m[k], cancelled, sem0, was))
            && (forall k :: k in m ==> GateAfter(closed, k, m[k], cancelled, sem0, was))
  {
    ModeMapIs(names, modes);
    var m := ModeMap(names, modes);
    var j :| 0 <= j < |names| && Refuses(names[j], modes[j], cancelled, sem0, was);
    assert Refuses(names[j], m[names[j]], cancelled, sem0, was);
    forall k | k in m ensures GateAfter(closed, k, m[k], cancelled, sem0, was) {
      var i :| 0 <= i < |names| && names[i] == k;
      assert GateAfter(closed, names[i], modes[i], cancelled, sem0, was);
    }
  }

  lemma WeightsByName(names: seq<Key>, modes: seq<Mode>, sem0: map<Key, int>, sem: map<Key, int>, used: bool)
    requires |names| == |modes| && Distinct(names)
    requires used ==> forall j :: 0 <= j < |names| ==> At(sem, names[j]) == At(sem0, names[j]) + if modes[j].exclusive then MAX else 1
    requires !used ==> forall k :: At(sem, k) == At(sem0, k)
    requires forall k :: k !in names ==> At(sem, k) == At(sem0, k)
    ensures forall k :: WeightAfter(sem0, sem, ModeMap(names, modes), used, k)
  {
    ModeMapIs(names, modes);
    forall k ensures WeightAfter(sem0, sem, ModeMap(names, modes), used, k) {
      if k in names {
        var j :| 0 <= j < |names| && names[j] == k;
      } else {
        assert k !in Elements(names);
      }
    }
  }

  /** The contract of the call, on the values before and after it. */
  ghost predicate Called(names: seq<Key>, modes: seq<Mode>, cancelled: set<Key>, outcome: seq<Option<string>>,
                         sem0: map<Key, int>, was: set<Key>, queue0: seq<Entry>, t: nat,
                         res: UseResult, sem: map<Key, int>, closed: set<Key>, queue: seq<Entry>)
    requires |names| == |modes| == |outcome|
  {
    && (forall k :: k !in names ==> At(sem, k) == At(sem0, k) && (k in closed <==> k in was))
    && (!res.InUse? ==> forall k :: At(sem, k) == At(sem0, k))
    && queue == (if res == LockFailed(GaveUp) || names == [] then Accepted(queue0, t, Elements(names)) else queue0)
    && (if res.LockFailed? then
          || (res.v.GaveUp? && closed == was)
          || (res.v.Failed? && Elements(names) !! KeysOf(queue0) && RefusedOne(names, modes, cancelled, sem0, was, closed))
        else
          Elements(names) !! KeysOf(queue0) && GrantedAll(names, modes, cancelled, outcome, sem0, was, res.InUse?, sem, closed))
  }

  ghost predicate RefusedOne(names: seq<Key>, modes: seq<Mode>, cancelled: set<Key>, sem0: map<Key, int>, was: set<Key>, closed: set<Key>)
    requires |names| == |modes|
  {
    && (exists j :: 0 <= j < |names| && Refuses(names[j], modes[j], cancelled, sem0, was))
    && (forall j :: 0 <= j < |names| ==> GateAfter(closed, names[j], modes[j], cancelled, sem0, was))
  }

  ghost predicate GrantedAll(names: seq<Key>, modes: seq<Mode>, cancelled: set<Key>, outcome: seq<Option<string>>,
                             sem0: map<Key, int>, was: set<Key>, used: bool, sem: map<Key, int>, closed: set<Key>)
    requires |names| == |modes| == |outcome|
  {
    var f := FirstFailure(Winners(names, modes, was), outcome);
    && (forall j :: 0 <= j < |names| ==> !Refuses(names[j], modes[j], cancelled, sem0, was))
    && (used <==> f == |names|)
    && (forall j :: 0 <= j < |names| ==> (names[j] in closed <==> names[j] in was || (Wins(modes[j], names[j], was) && j < f)))
    && (used ==> forall j :: 0 <= j < |names| ==> At(sem, names[j]) == At(sem0, names[j]) + if modes[j].exclusive then MAX else 1)
  }

  method CallUse(lk: Locker, names: seq<Key>, modes: seq<Mode>, cancelled: set<Key>, outcome: seq<Option<string>>)
    returns (res: UseResult, locks: seq<Lock>)
    requires |modes| == |names| == |outcome| && Distinct(names) && lk.ctl.Valid()
    requires forall j :: 0 <= j < |names| ==> lk.use.Cur(names[j]) >= 0
    modifies lk.use, lk.once, lk.ctl
    ensures lk.ctl.Valid() && lk.ctl.next == old(lk.ctl.next) + 1
    ensures Called(names, modes, cancelled, outcome, old(lk.use.sem), old(lk.once.closed), old(lk.ctl.queue), old(lk.ctl.next),
                   res, lk.use.sem, lk.once.closed, lk.ctl.queue)
  {
    res, locks := LockForContainerUse(lk, names, modes, cancelled, outcome);
    forall k ensures !res.InUse? || k !in names ==> At(lk.use.sem, k) == At(old(lk.use.sem), k) {
      assert !res.InUse? || k !in names ==> lk.use.Cur(k) == old(lk.use.Cur(k));
    }
    assert res.LockFailed? ==> !res.v.Granted?;
  }

  lemma CallIsRun(r0: Protocol.Run, names: seq<Key>, modes: seq<Mode>, cancelled: set<Key>, outcome: seq<Option<string>>,
                  sem0: map<Key, int>, queue0: seq<Entry>, res: UseResult, sem: map<Key, int>, closed: set<Key>, queue: seq<Entry>)
      returns (r: Protocol.Run)
    requires |names| == |modes| == |outcome| && Distinct(names)
    requires Protocol.FromStart(r0) && Mirrors(sem0, Last(r0).closed, queue0, |Last(r0).reqs|, Last(r0))
    requires Called(names, modes, cancelled, outcome, sem0, Last(r0).closed, queue0, |Last(r0).reqs|, res, sem, closed, queue)
    ensures AsRun(r0, r, ModeMap(names, modes), res, sem, closed, queue)
  {
    ModeMapIs(names, modes);
    if res == LockFailed(GaveUp) {
      r := GaveUpCase(r0, ModeMap(names, modes), sem0, queue0, sem, queue);
    } else if res.LockFailed? {
      RefusedByName(names, modes, cancelled, sem0, Last(r0).closed, closed);
      r := RefusedCase(r0, ModeMap(names, modes), cancelled, sem0, queue0, sem, closed);
    } else if names == [] {
      NothingNamed(names, modes);
      assert closed == Last(r0).closed;
      r := EmptyCase(r0, sem0, queue0, sem, queue);
    } else {
      r := InitsCase(r0, names, modes, cancelled, outcome, sem0, queue0, res, sem, closed);
    }
  }

  lemma NothingNamed(names: seq<Key>, modes: seq<Mode>)
    requires |names| == |modes| == 0
    ensures ModeMap(names, modes) == map[] && Elements(names) == {}
  {
  }

  lemma InitsCase(r0: Protocol.Run, names: seq<Key>, modes: seq<Mode>, cancelled: set<Key>, outcome: seq<Option<string>>,
                  sem0: map<Key, int>, queue0: seq<Entry>, res: UseResult, sem: map<Key, int>, closed: set<Key>) returns (r: Protocol.Run)
    requires |names| == |modes| == |outcome| && Distinct(names) && names != [] && Elements(names) !! KeysOf(queue0)
    requires Protocol.FromStart(r0) && Mirrors(sem0, Last(r0).closed, queue0, |Last(r0).reqs|, Last(r0))
    requires (forall k :: k !in names ==> At(sem, k) == At(sem0, k) && (k in closed <==> k in Last(r0).closed)) && !res.LockFailed?
    requires !res.InUse? ==> forall k :: At(sem, k) == At(sem0, k)
    requires GrantedAll(names, modes, cancelled, outcome, sem0, Last(r0).closed, res.InUse?, sem, closed)
    ensures AsRun(r0, r, ModeMap(names, modes), res, sem, closed, queue0)
  {
    var was := Last(r0).closed;
    var f := FirstFailure(Winners(names, modes, was), outcome);
    FailureWins(names, modes, was, outcome);
    GatesAfter(names, modes, was, f, closed);
    RoomForAll(names, modes, cancelled, sem0, Last(r0));
    WeightsByName(names, modes, sem0, sem, res.InUse?);
    r := GrantedCase(r0, names, modes, f, res, sem0, queue0, sem, closed);
  }

  /** The control's call, alone on the objects of a locker that mirror a reachable state: the run goes
      on with the steps of one new request, and the objects mirror the state it leads to. */
  method UseAlone(lk: Locker, names: seq<Key>, modes: seq<Mode>, cancelled: set<Key>, outcome: seq<Option<string>>, ghost r0: Protocol.Run)
    returns (res: UseResult, locks: seq<Lock>, ghost r: Protocol.Run)
    requires |modes| == |names| == |outcome| && Distinct(names) && lk.ctl.Valid()
    requires Protocol.FromStart(r0) && Mirrors(lk.use.sem, lk.once.closed, lk.ctl.queue, lk.ctl.next, Last(r0))
    modifies lk.use, lk.once, lk.ctl
    ensures lk.ctl.Valid() && AsRun(r0, r, ModeMap(names, modes), res, lk.use.sem, lk.once.closed, lk.ctl.queue)
    ensures Mirrors(lk.use.sem, lk.once.closed, lk.ctl.queue, lk.ctl.next, Last(r))
  {
    ghost var sem0, queue0 := lk.use.sem, lk.ctl.queue;
    NeverNegative(r0);
    res, locks := CallUse(lk, names, modes, cancelled, outcome);
    r := CallIsRun(r0, names, modes, cancelled, outcome, sem0, queue0, res, lk.use.sem, lk.once.closed, lk.ctl.queue);
  }

  lemma NeverNegative(r: Protocol.Run)
    requires Protocol.FromStart(r)
    ensures forall k :: Protocol.Cur(Last(r), k) >= 0
  {
    Reachable(r, |r.steps|);
    forall k ensures Protocol.Cur(Last(r), k) >= 0 {
      TotalAtLeast(Last(r).reqs, k);
      assert Protocol.Cur(Last(r), k) == Total(Last(r).reqs, k);
    }
  }
}
