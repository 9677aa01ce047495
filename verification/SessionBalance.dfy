/** The weight that a container-lock session of the beacon server takes from the semaphores and gives
    back, for every stream of messages. */
module SessionBalances {
  import opened Basics
  import opened LockValues
  import LockObjects
  import opened AcquireSessions
  import opened SessionInputs

  // ----- the weight a session has taken

  /** The entries of the last grant with their locks, and what the session has taken from each
      semaphore and not given back. */
  datatype Ledger = Ledger(entries: map<Key, Lock>, weight: map<Key, int>)

  const EMPTY := Ledger(map[], map[])

  /** One call on the locker: a result may downgrade a lock, a release gives back the weight that each
      lock of the grant stands for at that time. */
  function Effect(g: Ledger, e: Event): Ledger {
    match e
    case Acquired(locks) => Ledger(locks, g.weight + map k | k in locks :: At(g.weight, k) + Weight(locks[k]))
    case Result(k, ok) =>
      if k !in g.entries then g
      else Ledger(g.entries[k := WithResult(g.entries[k], ok)], g.weight[k := At(g.weight, k) - LockObjects.GivenBack(g.entries[k], ok)])
    case Released => g.(weight := g.weight + map k | k in g.entries :: At(g.weight, k) - Weight(g.entries[k]))
  }

  function Book(g: Ledger, calls: seq<Event>): Ledger {
    if calls == [] then g else Effect(Book(g, calls[..|calls| - 1]), calls[|calls| - 1])
  }

  /** No net weight in any semaphore. */
  ghost predicate Settled(g: Ledger) {
    forall k :: At(g.weight, k) == 0
  }

  /** In every semaphore exactly the weight of this session's lock on it. */
  ghost predicate Owing(g: Ledger) {
    forall k :: At(g.weight, k) == if k in g.entries then Weight(g.entries[k]) else 0
  }

  predicate AllResults(calls: seq<Event>) {
    forall e :: e in calls ==> e.Result?
  }

  lemma {:induction false} BookConcat(g: Ledger, a: seq<Event>, b: seq<Event>)
    ensures Book(g, a + b) == Book(Book(g, a), b)
  {
    if b == [] {
      assert a + b == a;
    } else {
      BookConcat(g, a, b[..|b| - 1]);
      assert (a + b)[..|a + b| - 1] == a + b[..|b| - 1];
    }
  }

  lemma BookOne(g: Ledger, e: Event)
    ensures Book(g, [e]) == Effect(g, e)
  {
    assert [e][..0] == [];
  }

  lemma AcquiredOwes(g: Ledger, locks: map<Key, Lock>)
    requires Settled(g)
    ensures Owing(Effect(g, Acquired(locks)))
  {
    var g' := Effect(g, Acquired(locks));
    forall k ensures At(g'.weight, k) == if k in locks then Weight(locks[k]) else 0 {
      assert At(g.weight, k) == 0;
    }
  }

  lemma ReleasedSettles(g: Ledger)
    requires Owing(g)
    ensures Settled(Effect(g, Released))
  {
    var g' := Effect(g, Released);
    forall k ensures At(g'.weight, k) == 0 {
      assert At(g.weight, k) == if k in g.entries then Weight(g.entries[k]) else 0;
    }
  }

  /** Whatever results are reported, repeated, contradictory or for a key that won no gate. */
  lemma {:induction false} ResultsOwe(g: Ledger, calls: seq<Event>)
    requires Owing(g) && AllResults(calls)
    ensures Owing(Book(g, calls)) && Book(g, calls).entries.Keys == g.entries.Keys
  {
    if calls != [] {
      var n := |calls| - 1;
      assert forall e :: e in calls[..n] ==> e in calls;
      ResultsOwe(g, calls[..n]);
      assert calls[n] in calls;
      OneResultOwes(Book(g, calls[..n]), calls[n]);
    }
  }

  lemma OneResultOwes(g: Ledger, e: Event)
    requires Owing(g) && e.Result?
    ensures Owing(Effect(g, e)) && Effect(g, e).entries.Keys == g.entries.Keys
  {
    var g' := Effect(g, e);
    forall k ensures At(g'.weight, k) == if k in g'.entries then Weight(g'.entries[k]) else 0 {
      assert At(g.weight, k) == if k in g.entries then Weight(g.entries[k]) else 0;
    }
  }

  // ----- balance of every request

  lemma {:induction false} ReadsResults(granted: set<Key>, i: nat, left: set<Key>, msgs: seq<Recv>)
    ensures AllResults(ReadResults(granted, i, left, msgs).results)
    decreases |msgs|
  {
    if i < |left| && msgs != [] && msgs[0].Got? && msgs[0].msg.Init? {
      ReadsResults(granted, i + 1, left - {msgs[0].msg.key}, msgs[1..]);
    }
  }

  lemma {:induction false} FailsResults(order: seq<Key>, left: set<Key>)
    ensures AllResults(Fails(order, left))
  {
    if order != [] {
      FailsResults(order[1..], left);
    }
  }

  predicate Stranded(outcome: Option<Outcome>) {
    outcome == Some(Rejected) || outcome == Some(Crashed)
  }

  /** The calls of a request: the grant, results, and the release unless the request is stranded. */
  lemma CallsOfRequest(locks: map<Key, Lock>, env: Env, msgs: seq<Recv>) returns (results: seq<Event>)
    ensures AllResults(results)
    ensures var v := Serve(locks, env, msgs);
            v.calls == [Acquired(locks)] + results + if Stranded(v.outcome) then [] else [Released]
  {
    if !env.sendOk {
      results := [];
    } else {
      var p := ReadResults(locks.Keys, 0, Winners(locks), msgs);
      ReadsResults(locks.Keys, 0, Winners(locks), msgs);
      FailsResults(env.order, p.left);
      var fails := if p.stop.Invalid? || (p.stop.Ended? && p.left != {}) then Fails(env.order, p.left) else [];
      results := p.results + fails;
      Appended([Acquired(locks)], p.results, fails);
    }
  }

  /** A request from a settled session on: no net weight at its end, unless it is stranded with
      exactly the weight of every lock it was granted. */
  lemma ServeBalanced(g: Ledger, locks: map<Key, Lock>, env: Env, msgs: seq<Recv>)
    requires Settled(g)
    ensures var v := Serve(locks, env, msgs);
            if Stranded(v.outcome) then Owing(Book(g, v.calls)) && Book(g, v.calls).entries.Keys == locks.Keys
            else Settled(Book(g, v.calls))
  {
    var v := Serve(locks, env, msgs);
    var results := CallsOfRequest(locks, env, msgs);
    var end := if Stranded(v.outcome) then [] else [Released];
    BookConcat(g, [Acquired(locks)] + results, end);
    BookConcat(g, [Acquired(locks)], results);
    BookOne(g, Acquired(locks));
    AcquiredOwes(g, locks);
    var owed := Book(Effect(g, Acquired(locks)), results);
    ResultsOwe(Effect(g, Acquired(locks)), results);
    BookOne(owed, Released);
    ReleasedSettles(owed);
  }

  // ----- balance of every session

  /** The head of the session loop: the calls made so far and what is still to come. */
  datatype Head = Head(calls: seq<Event>, inbox: seq<Recv>, env: seq<Env>)

  /** The next message is an acquire that is granted. */
  predicate Opens(inbox: seq<Recv>, env: seq<Env>) {
    && inbox != [] && inbox[0].Got? && inbox[0].msg.Acquire? && ValidTargets(inbox[0].msg.targets)
    && env != [] && env[0].lockOk
  }

  function LocksOf(inbox: seq<Recv>, env: seq<Env>): map<Key, Lock>
    requires Opens(inbox, env)
  {
    Grants(inbox[0].msg.targets, env[0].won)
  }

  function NextHead(h: Head): Option<Head> {
    if !Opens(h.inbox, h.env) then None
    else
      var v := Serve(LocksOf(h.inbox, h.env), h.env[0], h.inbox[1..]);
      if v.outcome.Some? then None else Some(Head(h.calls + v.calls, h.inbox[1 + v.used..], h.env[1..]))
  }

  ghost predicate Follows(hs: seq<Head>, i: nat)
    requires i + 1 < |hs|
  {
    NextHead(hs[i]) == Some(hs[i + 1])
  }

  /** The loop heads of a session up to some point. */
  ghost predicate Trail(inbox: seq<Recv>, env: seq<Env>, hs: seq<Head>) {
    hs != [] && hs[0] == Head([], inbox, env) && forall i :: 0 <= i < |hs| - 1 ==> Follows(hs, i)
  }

  lemma NextShorter(h: Head)
    requires NextHead(h).Some?
    ensures |NextHead(h).value.inbox| < |h.inbox|
  {
  }

  lemma NextSettled(h: Head)
    requires Settled(Book(EMPTY, h.calls)) && NextHead(h).Some?
    ensures Settled(Book(EMPTY, NextHead(h).value.calls))
  {
    var locks := LocksOf(h.inbox, h.env);
    ServeBalanced(Book(EMPTY, h.calls), locks, h.env[0], h.inbox[1..]);
    BookConcat(EMPTY, h.calls, Serve(locks, h.env[0], h.inbox[1..]).calls);
  }

  lemma StepSettled(inbox: seq<Recv>, env: seq<Env>, hs: seq<Head>, i: nat)
    requires Trail(inbox, env, hs) && i + 1 < |hs| && Settled(Book(EMPTY, hs[i].calls))
    ensures Settled(Book(EMPTY, hs[i + 1].calls))
  {
    assert Follows(hs, i);
    NextSettled(hs[i]);
  }

  /** At every head of the loop the session has no net weight. */
  lemma {:induction false} HeadsSettled(inbox: seq<Recv>, env: seq<Env>, hs: seq<Head>, n: nat)
    requires Trail(inbox, env, hs) && n < |hs|
    ensures Settled(Book(EMPTY, hs[n].calls))
  {
    if n > 0 {
      HeadsSettled(inbox, env, hs, n - 1);
      StepSettled(inbox, env, hs, n - 1);
    }
  }

  lemma NextSession(h: Head, all: (seq<Event>, Outcome))
    requires NextHead(h).Some? && all == (h.calls + Session(h.inbox, h.env).0, Session(h.inbox, h.env).1)
    ensures var h' := NextHead(h).value; all == (h'.calls + Session(h'.inbox, h'.env).0, Session(h'.inbox, h'.env).1)
  {
    SessionStep(h.calls, h.inbox, h.env);
  }

  lemma {:induction false} HeadSession(inbox: seq<Recv>, env: seq<Env>, hs: seq<Head>, n: nat)
    requires Trail(inbox, env, hs) && n < |hs|
    ensures Session(inbox, env) == (hs[n].calls + Session(hs[n].inbox, hs[n].env).0, Session(hs[n].inbox, hs[n].env).1)
  {
    if n == 0 {
      assert [] + Session(inbox, env).0 == Session(inbox, env).0;
    } else {
      HeadSession(inbox, env, hs, n - 1);
      assert Follows(hs, n - 1);
      NextSession(hs[n - 1], Session(inbox, env));
    }
  }

  lemma {:induction false} WholeTrail(inbox: seq<Recv>, env: seq<Env>, some: seq<Head>) returns (hs: seq<Head>)
    requires Trail(inbox, env, some)
    ensures Trail(inbox, env, hs) && NextHead(hs[|hs| - 1]).None?
    decreases |some[|some| - 1].inbox|
  {
    hs := some;
    var last := some[|some| - 1];
    if NextHead(last).Some? {
      NextShorter(last);
      var more := some + [NextHead(last).value];
      forall i | 0 <= i < |more| - 1 ensures Follows(more, i) {
        assert i < |some| - 1 ==> Follows(some, i);
      }
      hs := WholeTrail(inbox, env, more);
    }
  }

  // ----- exactly which streams leave weight behind

  /** The answer was sent, and the messages after it strand the locks: either the init phase is over
      and the next one is not a release, or a result names a key that was not requested. */
  ghost predicate Strands(locks: map<Key, Lock>, env: Env, msgs: seq<Recv>) {
    env.sendOk && (RejectsOn(locks, msgs) || CrashesOn(locks, msgs))
  }

  lemma StrandedExactly(locks: map<Key, Lock>, env: Env, msgs: seq<Recv>)
    ensures Stranded(Serve(locks, env, msgs).outcome) <==> Strands(locks, env, msgs)
  {
    RejectedExactly(locks, env, msgs);
    CrashedExactly(locks, env, msgs);
  }

  /** The request at this head strands its locks. */
  ghost predicate StrandsAt(h: Head) {
    Opens(h.inbox, h.env) && Strands(LocksOf(h.inbox, h.env), h.env[0], h.inbox[1..])
  }

  /** The weight a session is left with when its handler returns from this head. */
  ghost predicate LeftWith(h: Head, g: Ledger) {
    if StrandsAt(h) then Owing(g) && g.entries.Keys == h.inbox[0].msg.targets.Keys else Settled(g)
  }

  lemma ReturnsFrom(h: Head)
    requires NextHead(h).None? && Settled(Book(EMPTY, h.calls))
    ensures LeftWith(h, Book(EMPTY, h.calls + Session(h.inbox, h.env).0))
  {
    if Opens(h.inbox, h.env) {
      var locks := LocksOf(h.inbox, h.env);
      var v := Serve(locks, h.env[0], h.inbox[1..]);
      SessionStep(h.calls, h.inbox, h.env);
      StrandedExactly(locks, h.env[0], h.inbox[1..]);
      ServeBalanced(Book(EMPTY, h.calls), locks, h.env[0], h.inbox[1..]);
      BookConcat(EMPTY, h.calls, v.calls);
    } else {
      assert Session(h.inbox, h.env).0 == [] && h.calls + [] == h.calls;
    }
  }

  /** For every stream of messages, with `hs` the heads of its loop: the session has no net weight in
      any semaphore at any head, and none when its handler returns, unless the messages of its last
      request strand the locks; then it keeps exactly the weight of every lock of that request. */
  lemma SessionBalance(inbox: seq<Recv>, env: seq<Env>) returns (hs: seq<Head>)
    ensures Trail(inbox, env, hs) && NextHead(hs[|hs| - 1]).None?
    ensures forall n :: 0 <= n < |hs| ==> Settled(Book(EMPTY, hs[n].calls))
    ensures LeftWith(hs[|hs| - 1], Book(EMPTY, Session(inbox, env).0))
  {
    hs := [Head([], inbox, env)];
    hs := WholeTrail(inbox, env, hs);
    forall n | 0 <= n < |hs| ensures Settled(Book(EMPTY, hs[n].calls)) {
      HeadsSettled(inbox, env, hs, n);
    }
    SessionReturns(inbox, env, hs);
  }

  lemma SessionReturns(inbox: seq<Recv>, env: seq<Env>, hs: seq<Head>)
    requires Trail(inbox, env, hs) && NextHead(hs[|hs| - 1]).None?
    ensures LeftWith(hs[|hs| - 1], Book(EMPTY, Session(inbox, env).0))
  {
    HeadsSettled(inbox, env, hs, |hs| - 1);
    HeadSession(inbox, env, hs, |hs| - 1);
    ReturnsFrom(hs[|hs| - 1]);
  }

  /** The first failing family, for every valid request that wins no gate: any message but a release
      makes the server return with every key of the request locked. */
  lemma RejectedFamily(targets: map<Key, AcquireOp>, m: Msg)
    requires ValidTargets(targets) && !m.Release?
    ensures var all := Session([Got(Acquire(targets)), Got(m)], [Env(true, {}, true, [])]);
            all.1 == Rejected && forall k :: k in targets ==> At(Book(EMPTY, all.0).weight, k) == Weight(NewLock(ModeOf(targets[k]).value, false))
  {
    var env, inbox := Env(true, {}, true, []), [Got(Acquire(targets)), Got(m)];
    var locks := Grants(targets, {});
    SessionOne(targets, env, inbox);
    assert inbox[1..] == [Got(m)] && Winners(locks) == {};
    RejectedExactly(locks, env, [Got(m)]);
    assert Serve(locks, env, [Got(m)]).calls == [Acquired(locks)];
    GrantOnly(locks);
  }

  lemma GrantOnly(locks: map<Key, Lock>)
    ensures forall k :: k in locks ==> At(Book(EMPTY, [Acquired(locks)]).weight, k) == Weight(locks[k])
  {
    BookOne(EMPTY, Acquired(locks));
    AcquiredOwes(EMPTY, locks);
  }

  /** The second one, for every valid request that wins a gate: a result for a key that was not
      requested crashes the handler with every key of the request locked. */
  lemma CrashedFamily(targets: map<Key, AcquireOp>, k: Key, foreign: Key, ok: bool)
    requires ValidTargets(targets) && k in targets && ModeOf(targets[k]).value.init && foreign !in targets
    ensures var all, locks := Session([Got(Acquire(targets)), Got(Init(foreign, ok))], [Env(true, {k}, true, [k])]), Grants(targets, {k});
            all.1 == Crashed && forall j :: j in targets ==> At(Book(EMPTY, all.0).weight, j) == Weight(locks[j])
  {
    var env, inbox := Env(true, {k}, true, [k]), [Got(Acquire(targets)), Got(Init(foreign, ok))];
    var locks := Grants(targets, {k});
    SessionOne(targets, env, inbox);
    assert inbox[1..] == [Got(Init(foreign, ok))] && Winners(locks) == {k};
    assert ReadResults(locks.Keys, 0, {k}, inbox[1..]) == InitPhase([], {k}, 1, Panicked);
    assert Serve(locks, env, inbox[1..]) == Served([Acquired(locks)], 1, Some(Crashed));
    GrantOnly(locks);
  }
}
