/** Which init gates a container-lock session of the beacon server leaves shut without a result, and
    which it opens again after a success, in terms of the messages alone. */
module SessionGates {
  import opened Basics
  import opened LockValues
  import opened AcquireSessions
  import opened SessionInputs

  /** An init result of `k` is reported. */
  predicate Reports(calls: seq<Event>, k: Key) {
    Result(k, true) in calls || Result(k, false) in calls
  }

  lemma {:induction false} ReadsLeave(granted: set<Key>, i: nat, left: set<Key>, msgs: seq<Recv>, k: Key)
    ensures var p := ReadResults(granted, i, left, msgs); k in p.left <==> k in left && !Reports(p.results, k)
    decreases |msgs|
  {
    if i < |left| && msgs != [] && msgs[0].Got? && msgs[0].msg.Init? && msgs[0].msg.key in granted && msgs[0].msg.ok {
      ReadsLeave(granted, i + 1, left - {msgs[0].msg.key}, msgs[1..], k);
    }
  }

  lemma {:induction false} FailsReport(order: seq<Key>, left: set<Key>, k: Key)
    ensures Reports(Fails(order, left), k) <==> k in order && k in left
  {
    if order != [] {
      FailsReport(order[1..], left, k);
    }
  }

  lemma Parts(a: seq<Event>, b: seq<Event>, k: Key)
    ensures Reports(a + b, k) <==> Reports(a, k) || Reports(b, k)
  {
  }

  /** The calls of one request begin with the grant and the results read. */
  lemma {:induction false} FirstCalls(locks: map<Key, Lock>, env: Env, msgs: seq<Recv>, k: Key)
    requires env.sendOk
    ensures var v, p := Serve(locks, env, msgs), ReadResults(locks.Keys, 0, Winners(locks), msgs);
            Reports(v.calls, k) <==>
            Reports(p.results, k) || ((p.stop.Invalid? || (p.stop.Ended? && p.left != {})) && Reports(Fails(env.order, p.left), k))
  {
    var p := ReadResults(locks.Keys, 0, Winners(locks), msgs);
    Parts([Acquired(locks)], p.results, k);
    var calls := [Acquired(locks)] + p.results;
    Parts(calls, [Released], k);
    Parts(calls, Fails(env.order, p.left), k);
    Parts(calls + Fails(env.order, p.left), [Released], k);
  }

  lemma {:induction false} ReportedByPhase(locks: map<Key, Lock>, env: Env, msgs: seq<Recv>, k: Key)
    requires k in Winners(locks) && k in env.order
    ensures var v, p := Serve(locks, env, msgs), ReadResults(locks.Keys, 0, Winners(locks), msgs);
            Reports(v.calls, k) <==> env.sendOk && (k in p.left ==> !p.stop.Aborted? && !p.stop.Panicked?)
  {
    if env.sendOk {
      var p := ReadResults(locks.Keys, 0, Winners(locks), msgs);
      ReadsLeave(locks.Keys, 0, Winners(locks), msgs, k);
      FailsReport(env.order, p.left, k);
      FirstCalls(locks, env, msgs, k);
    }
  }

  // ----- gates left shut

  lemma {:induction false} NamedAre(granted: set<Key>, msgs: seq<Recv>, k: Key)
    requires forall j :: 0 <= j < |msgs| ==> Success(granted, msgs[j])
    ensures k in Named(msgs) <==> Got(Init(k, true)) in msgs
  {
    if msgs != [] {
      NamedAre(granted, msgs[1..], k);
      assert msgs == [msgs[0]] + msgs[1..];
      assert Success(granted, msgs[0]);
    }
  }

  /** The init phase waits for message `c`, which is a foreign key or the end of the stream, and no
      result of `k` has come before. */
  predicate Cut(locks: map<Key, Lock>, msgs: seq<Recv>, k: Key, c: nat) {
    && Expects(locks.Keys, 0, Winners(locks), msgs, c) && (Foreign(locks.Keys, msgs, c) || EndsAt(msgs, c))
    && Got(Init(k, true)) !in msgs[..c]
  }

  /** The gate of a winner stays shut, its lock being released or stranded without a result, if and
      only if the answer cannot be sent or the stream ends or names a foreign key while the init
      phase still waits and before a result of that key. */
  lemma {:induction false} GatesLeftShut(locks: map<Key, Lock>, env: Env, msgs: seq<Recv>, k: Key)
    requires k in Winners(locks) && k in env.order
    ensures !Reports(Serve(locks, env, msgs).calls, k) <==> !env.sendOk || exists c: nat :: Cut(locks, msgs, k, c)
  {
    var w := Winners(locks);
    var p := ReadResults(locks.Keys, 0, w, msgs);
    ReportedByPhase(locks, env, msgs, k);
    if p.stop.Aborted? || p.stop.Panicked? {
      var c := StopsAt(locks.Keys, 0, w, msgs);
      NamedAre(locks.Keys, msgs[..c], k);
      assert k in p.left ==> Cut(locks, msgs, k, c);
    }
    if exists c: nat :: Cut(locks, msgs, k, c) {
      var c: nat :| Cut(locks, msgs, k, c);
      StopsThere(locks.Keys, 0, w, msgs, c);
      NamedAre(locks.Keys, msgs[..c], k);
    }
  }

  /** Such a stream, for every grant with a winner: the client goes away before its first result. */
  lemma ClientGone(locks: map<Key, Lock>, env: Env, k: Key)
    requires k in Winners(locks) && k in env.order && env.sendOk
    ensures var v := Serve(locks, env, [Eof]);
            v == Served([Acquired(locks), Released], 1, Some(Failed)) && !Reports(v.calls, k)
  {
    assert |Winners(locks) - {k}| == |Winners(locks)| - 1;
    assert ReadResults(locks.Keys, 0, Winners(locks), [Eof]) == InitPhase([], Winners(locks), 1, Aborted);
    assert [Acquired(locks)] + [] + [Released] == [Acquired(locks), Released];
  }

  // ----- gates opened again after a success

  /** A success of `k` is read and later, while the init phase still waits, a failure of `k`. */
  predicate Contradicted(granted: set<Key>, i: nat, left: set<Key>, msgs: seq<Recv>, k: Key, c: nat, d: nat) {
    && c < d < |msgs| && Expects(granted, i, left, msgs, d)
    && msgs[c] == Got(Init(k, true)) && msgs[d] == Got(Init(k, false))
  }

  lemma ResultsNext(granted: set<Key>, i: nat, left: set<Key>, msgs: seq<Recv>, e: Event)
    requires i < |left| && msgs != [] && Success(granted, msgs[0])
    ensures var p, q := ReadResults(granted, i, left, msgs), ReadResults(granted, i + 1, left - {msgs[0].msg.key}, msgs[1..]);
            e in p.results <==> e == Result(msgs[0].msg.key, true) || e in q.results
  {
  }

  lemma ResultsNow(granted: set<Key>, i: nat, left: set<Key>, msgs: seq<Recv>, e: Event)
    requires i >= |left| || msgs == [] || !Success(granted, msgs[0])
    ensures e in ReadResults(granted, i, left, msgs).results <==>
            && i < |left| && msgs != [] && msgs[0].Got? && msgs[0].msg.Init? && msgs[0].msg.key in granted
            && !msgs[0].msg.ok && e == Result(msgs[0].msg.key, false)
  {
  }

  lemma FirstIn(msgs: seq<Recv>, d: nat, m: Recv)
    requires 0 < d <= |msgs|
    ensures m in msgs[..d] <==> m == msgs[0] || m in msgs[1..][..d - 1]
  {
    assert msgs[..d] == [msgs[0]] + msgs[1..][..d - 1];
  }

  lemma ExpectsNow(granted: set<Key>, i: nat, left: set<Key>, msgs: seq<Recv>)
    ensures Expects(granted, i, left, msgs, 0) <==> i < |left|
  {
    assert msgs[..0] == [] && left - Named([]) == left;
  }

  /** A failure is the last result read; it was waited for. */
  lemma {:induction false} FailureRead(granted: set<Key>, i: nat, left: set<Key>, msgs: seq<Recv>, k: Key) returns (d: nat)
    requires Result(k, false) in ReadResults(granted, i, left, msgs).results
    ensures d < |msgs| && Expects(granted, i, left, msgs, d) && msgs[d] == Got(Init(k, false))
    ensures Result(k, true) in ReadResults(granted, i, left, msgs).results <==> Got(Init(k, true)) in msgs[..d]
    decreases |msgs|
  {
    if i < |left| && msgs != [] && Success(granted, msgs[0]) {
      ResultsNext(granted, i, left, msgs, Result(k, false));
      ResultsNext(granted, i, left, msgs, Result(k, true));
      d := FailureRead(granted, i + 1, left - {msgs[0].msg.key}, msgs[1..], k);
      ExpectsNext(granted, i, left, msgs, d);
      d := d + 1;
      FirstIn(msgs, d, Got(Init(k, true)));
    } else {
      ResultsNow(granted, i, left, msgs, Result(k, false));
      ResultsNow(granted, i, left, msgs, Result(k, true));
      ExpectsNow(granted, i, left, msgs);
      d := 0;
    }
  }

  lemma {:induction false} ContradictionRead(granted: set<Key>, i: nat, left: set<Key>, msgs: seq<Recv>, k: Key, d: nat)
    requires d < |msgs| && Expects(granted, i, left, msgs, d) && msgs[d] == Got(Init(k, false)) && k in granted
    ensures Result(k, false) in ReadResults(granted, i, left, msgs).results
    ensures Got(Init(k, true)) in msgs[..d] ==> Result(k, true) in ReadResults(granted, i, left, msgs).results
    decreases |msgs|
  {
    ExpectsFirst(granted, i, left, msgs, d);
    if d > 0 {
      assert Success(granted, msgs[0]);
      ExpectsNext(granted, i, left, msgs, d - 1);
      ContradictionRead(granted, i + 1, left - {msgs[0].msg.key}, msgs[1..], k, d - 1);
      ResultsNext(granted, i, left, msgs, Result(k, false));
      ResultsNext(granted, i, left, msgs, Result(k, true));
      FirstIn(msgs, d, Got(Init(k, true)));
    } else {
      ResultsNow(granted, i, left, msgs, Result(k, false));
    }
  }

  /** The server re-opens the gate of a winner whose success it has reported if and only if the client
      takes its success back while the init phase still waits. */
  lemma {:induction false} ReopenedExactly(locks: map<Key, Lock>, msgs: seq<Recv>, k: Key)
    requires k in Winners(locks)
    ensures var p := ReadResults(locks.Keys, 0, Winners(locks), msgs);
            Result(k, true) in p.results && Result(k, false) in p.results <==>
            exists c: nat, d: nat :: Contradicted(locks.Keys, 0, Winners(locks), msgs, k, c, d)
  {
    var w := Winners(locks);
    var p := ReadResults(locks.Keys, 0, w, msgs);
    if Result(k, true) in p.results && Result(k, false) in p.results {
      var d := FailureRead(locks.Keys, 0, w, msgs, k);
      var c :| 0 <= c < d && msgs[..d][c] == Got(Init(k, true));
      assert Contradicted(locks.Keys, 0, w, msgs, k, c, d);
    }
    if c: nat, d: nat :| Contradicted(locks.Keys, 0, w, msgs, k, c, d) {
      assert msgs[..d][c] == msgs[c];
      ContradictionRead(locks.Keys, 0, w, msgs, k, d);
    }
  }

  /** That takes a request that has won three gates at least. */
  lemma ReopeningNeedsThree(locks: map<Key, Lock>, msgs: seq<Recv>, k: Key, c: nat, d: nat)
    requires k in Winners(locks) && Contradicted(locks.Keys, 0, Winners(locks), msgs, k, c, d)
    ensures |Winners(locks)| >= 3
  {
    var w, named := Winners(locks), Named(msgs[..d]);
    NamedAre(locks.Keys, msgs[..d], k);
    assert msgs[..d][c] == msgs[c];
    assert w - named <= w - {k};
    Fewer(w - {k}, named);
    assert (w - {k}) - named == w - named;
    assert |w - {k}| == |w| - 1;
  }

  /** And every winner of such a request can have its gate re-opened. */
  lemma ThreeCanReopen(locks: map<Key, Lock>, k: Key)
    requires k in Winners(locks) && |Winners(locks)| >= 3
    ensures Contradicted(locks.Keys, 0, Winners(locks), [Got(Init(k, true)), Got(Init(k, false))], k, 0, 1)
  {
    var msgs := [Got(Init(k, true)), Got(Init(k, false))];
    assert msgs[..1] == [Got(Init(k, true))] && msgs[..1][1..] == [];
    assert Named(msgs[..1]) == {k};
    assert |Winners(locks) - {k}| == |Winners(locks)| - 1;
  }
}
