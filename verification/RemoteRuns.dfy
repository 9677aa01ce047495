/** Exactly when the calls of a remote request are those of some local run: some order of the gates won
    and some outcome of the inits that the client did not run. */
module RemoteRuns {
  import opened Basics
  import opened LockValues
  import opened AcquireSessions
  import opened RemoteControls

  /** Which inits succeed over an order, `good` being the keys whose init does. */
  function Outcomes(order: seq<Key>, good: set<Key>): seq<bool> {
    seq(|order|, i requires 0 <= i < |order| => order[i] in good)
  }

  /** The keys of `good` are those whose init succeeds, as far as the client has run them. */
  predicate Agrees(good: set<Key>, order: seq<Key>, oks: seq<bool>)
    requires |order| == |oks|
  {
    forall j :: 0 <= j < Runs(oks) ==> (order[j] in good <==> oks[j])
  }

  /** The calls of the local control for the same grant, over its own order of the gates won, with
      the inits of the keys in `good` succeeding. */
  ghost predicate LocalRun(calls: seq<Event>, locks: map<Key, Lock>, local: seq<Key>, good: set<Key>) {
    Orders(local, Winners(locks)) && calls == LocalCalls(locks, local, FirstFalse(Outcomes(local, good)))
  }

  /** The server's leftovers when it has read as many results as it can. */
  function Unread(env: Env, order: seq<Key>): seq<Key> {
    HalfBounds(0, |order|);
    Leftovers(env.order, Elements(order[Half(|order|)..]))
  }

  /** The first leftover is a key whose init has failed or was not run. */
  predicate FailedFirst(env: Env, order: seq<Key>, oks: seq<bool>)
    requires |order| == |oks|
  {
    Unread(env, order) != [] && Unread(env, order)[0] in order[FirstFalse(oks)..]
  }

  lemma OutcomesAt(order: seq<Key>, good: set<Key>, g: nat)
    requires g <= |order| && (forall i :: 0 <= i < g ==> order[i] in good) && (g < |order| ==> order[g] !in good)
    ensures FirstFalse(Outcomes(order, good)) == g
  {
    var oks := Outcomes(order, good);
    assert forall i :: 0 <= i < g ==> oks[i];
    assert g < |order| ==> !oks[g];
  }

  lemma LocalResultAt(order: seq<Key>, f: nat, i: nat)
    requires i < |order|
    ensures LocalResults(order, f)[i] == Result(order[i], i < f)
  {
  }

  lemma SameResults(a: seq<Key>, f: nat, b: seq<Key>, g: nat)
    requires f <= |a| && g <= |b| && LocalResults(a, f) == LocalResults(b, g)
    ensures a == b && f == g
  {
    assert |LocalResults(a, f)| == |a| && |LocalResults(b, g)| == |b|;
    forall i | 0 <= i < |a| ensures a[i] == b[i] {
      LocalResultAt(a, f, i);
      LocalResultAt(b, g, i);
    }
    if f < g {
      LocalResultAt(a, f, f);
      LocalResultAt(b, g, f);
    } else if g < f {
      LocalResultAt(a, f, g);
      LocalResultAt(b, g, g);
    }
  }

  lemma SameCalls(locks: map<Key, Lock>, a: seq<Key>, f: nat, b: seq<Key>, g: nat)
    requires f <= |a| && g <= |b| && LocalCalls(locks, a, f) == LocalCalls(locks, b, g)
    ensures a == b && f == g
  {
    var x, y := LocalCalls(locks, a, f), LocalCalls(locks, b, g);
    assert x[1..|x| - 1] == LocalResults(a, f) && y[1..|y| - 1] == LocalResults(b, g);
    SameResults(a, f, b, g);
  }

  lemma Members(l: seq<Key>, tail: seq<Key>)
    requires Orders(l, Elements(tail))
    ensures forall k :: k in l <==> k in tail
  {
    forall k ensures k in l <==> k in tail {
      assert k in Elements(l) <==> k in Elements(tail);
    }
  }

  /** An order, cut in two and its second half put in another order. */
  lemma Reordered(order: seq<Key>, all: set<Key>, m: nat, l: seq<Key>)
    requires Orders(order, all) && m <= |order| && Orders(l, Elements(order[m..]))
    ensures Orders(order[..m] + l, all)
  {
    var o := order[..m] + l;
    assert order == order[..m] + order[m..];
    Members(l, order[m..]);
    forall i, j | 0 <= i < m <= j < |o| ensures o[i] != o[j] {
      assert o[j] == l[j - m] && l[j - m] in l;
      var c :| 0 <= c < |order[m..]| && order[m..][c] == o[j];
      assert order[m + c] == o[j];
    }
    assert forall k :: k in o <==> k in order;
    assert forall k :: k in Elements(o) <==> k in all;
  }

  /** The server's calls are those of a loop over what it has read and then its leftovers, the first
      failure being the client's or the first leftover. */
  lemma ServedOrder(locks: map<Key, Lock>, env: Env, order: seq<Key>, oks: seq<bool>) returns (l: seq<Key>)
    requires Composed(locks, env, order, oks)
    ensures var m := Reads(0, oks);
            && m <= |order| && Orders(l, Elements(order[m..])) && Orders(order[..m] + l, Winners(locks))
            && l == Leftovers(env.order, Elements(order[m..]))
            && Serve(locks, env, Sent(order, oks)).calls == LocalCalls(locks, order[..m] + l, Min(m, FirstFalse(oks)))
  {
    var p := ServerCalls(locks, env, order, oks);
    var f, m := FirstFalse(oks), Reads(0, oks);
    HalfBounds(0, |oks|);
    FailsAre(env.order, p.left);
    LeftoversOrder(env.order, Winners(locks), p.left);
    LeftAmong(order, Winners(locks), m, p.left);
    assert p.left * Winners(locks) == p.left;
    l := Leftovers(env.order, p.left);
    Reordered(order, Winners(locks), m, l);
    CallsAre(locks, p.results, Fails(env.order, p.left), order, oks, l);
  }

  lemma CallsAre(locks: map<Key, Lock>, results: seq<Event>, fails: seq<Event>, order: seq<Key>, oks: seq<bool>, l: seq<Key>)
    requires |results| <= |order| == |oks| && |results| <= Runs(oks) && |fails| == |l|
    requires forall j :: 0 <= j < |results| ==> results[j] == Result(order[j], oks[j])
    requires forall j :: 0 <= j < |fails| ==> fails[j] == Result(l[j], false)
    ensures [Acquired(locks)] + results + fails + [Released] ==
            LocalCalls(locks, order[..|results|] + l, Min(|results|, FirstFalse(oks)))
  {
    var m, f := |results|, FirstFalse(oks);
    var o := order[..m] + l;
    assert o[m..] == l;
    assert forall j :: 0 <= j < m ==> o[j] == order[j] && (oks[j] <==> j < Min(m, f));
    SideBySide(results, fails, o, Min(m, f), m);
    Assembled(Acquired(locks), results, fails, Released);
  }

  lemma InTail(order: seq<Key>, f: nat, k: Key) returns (j: nat)
    requires f <= |order| && k in order[f..]
    ensures f <= j < |order| && order[j] == k
  {
    var c :| 0 <= c < |order[f..]| && order[f..][c] == k;
    j := f + c;
  }

  lemma TailHas(order: seq<Key>, f: nat)
    requires f <= |order|
    ensures forall j :: f <= j < |order| ==> order[j] in order[f..]
  {
    forall j | f <= j < |order| ensures order[j] in order[f..] {
      assert order[f..][j - f] == order[j];
    }
  }

  lemma NoFailureAt(order: seq<Key>, good: set<Key>, m: nat)
    requires m < |order| && order[m] in good
    ensures FirstFalse(Outcomes(order, good)) != m
  {
    assert Outcomes(order, good)[m];
  }

  /** The keys of a prefix, in an order without repetition. */
  lemma PrefixKeys(order: seq<Key>, f: nat)
    requires Distinct(order) && f <= |order|
    ensures forall j :: 0 <= j < |order| ==> (order[j] in order[..f] <==> j < f)
  {
    assert forall j :: 0 <= j < f ==> order[..f][j] == order[j];
  }

  /** Where the loop of the server, read as a local run, comes to its first failure. */
  lemma FailureAt(env: Env, order: seq<Key>, oks: seq<bool>, l: seq<Key>)
    requires |order| == |oks| && Distinct(order) && Reads(0, oks) <= |order|
    requires Orders(l, Elements(order[Reads(0, oks)..])) && l == Leftovers(env.order, Elements(order[Reads(0, oks)..]))
    requires FirstFalse(oks) <= Half(|oks|) || FailedFirst(env, order, oks)
    ensures var m, f := Reads(0, oks), FirstFalse(oks);
            && (m < f ==> l != [] && l[0] in order[f..])
            && (m == f && l != [] ==> l[0] in order[f..])
            && (l == [] ==> m == |order|)
  {
    HalfBounds(0, |oks|);
    Members(l, order[Reads(0, oks)..]);
    assert l != [] ==> l[0] in l;
    if Reads(0, oks) < |order| {
      assert order[Reads(0, oks)..][0] in l;
    }
  }

  /** If the inits that succeed are at most half of the gates won, rounded up, or else the server
      happens to begin its leftovers with a key whose init has not succeeded, the remote calls are
      those of a local run that agrees with every init the client has run. In the first case, in
      particular with at most one gate won, the successes reported are the client's. */
  lemma RemoteRefinesLocal(locks: map<Key, Lock>, env: Env, order: seq<Key>, oks: seq<bool>) returns (local: seq<Key>, good: set<Key>)
    requires Composed(locks, env, order, oks) && (FirstFalse(oks) <= Half(|oks|) || FailedFirst(env, order, oks))
    ensures Agrees(good, order, oks) && LocalRun(Serve(locks, env, Sent(order, oks)).calls, locks, local, good)
    ensures var f := FirstFalse(oks);
            f <= Half(|oks|) ==> FirstFalse(Outcomes(local, good)) == f <= |local| && local[..f] == order[..f]
  {
    var l := ServedOrder(locks, env, order, oks);
    local, good := order[..Reads(0, oks)] + l, Elements(order[..FirstFalse(oks)]);
    FailureAt(env, order, oks, l);
    ReadAsRun(order, oks, Reads(0, oks), l);
    ReadsAreRuns(oks);
  }

  lemma ReadsAreRuns(oks: seq<bool>)
    ensures Reads(0, oks) <= Runs(oks)
    ensures FirstFalse(oks) <= Half(|oks|) ==> FirstFalse(oks) <= Reads(0, oks)
  {
    HalfBounds(0, |oks|);
  }

  /** The keys before the client's first failure taken for good ones, the loop fails there or at its
      first leftover. */
  lemma ReadAsRun(order: seq<Key>, oks: seq<bool>, m: nat, l: seq<Key>)
    requires Distinct(order) && |order| == |oks| && m <= |order| && m <= Runs(oks)
    requires m <= FirstFalse(oks) && l != [] ==> l[0] in order[FirstFalse(oks)..]
    requires l == [] ==> m == |order|
    ensures var f, local := FirstFalse(oks), order[..m] + l;
            && Agrees(Elements(order[..f]), order, oks)
            && FirstFalse(Outcomes(local, Elements(order[..f]))) == Min(m, f)
            && (f <= m ==> f <= |local| && local[..f] == order[..f])
  {
    var f := FirstFalse(oks);
    var local, good, g := order[..m] + l, Elements(order[..f]), Min(m, f);
    PrefixKeys(order, f);
    assert forall i :: 0 <= i < m ==> local[i] == order[i];
    if m <= f && l != [] {
      var j := InTail(order, f, l[0]);
    }
    assert g < |local| ==> local[g] == (if m <= f then l[0] else order[f]);
    OutcomesAt(local, good, g);
  }

  /** And only then: otherwise no order of the gates won and no outcome of the inits that agrees with
      what the client has run makes these calls. */
  lemma RemoteDiverges(locks: map<Key, Lock>, env: Env, order: seq<Key>, oks: seq<bool>, local: seq<Key>, good: set<Key>)
    requires Composed(locks, env, order, oks) && FirstFalse(oks) > Half(|oks|) && !FailedFirst(env, order, oks)
    requires Agrees(good, order, oks)
    ensures !LocalRun(Serve(locks, env, Sent(order, oks)).calls, locks, local, good)
  {
    var l := ServedOrder(locks, env, order, oks);
    var f, m := FirstFalse(oks), Reads(0, oks);
    HalfBounds(0, |oks|);
    assert m == Half(|oks|) < f;
    GoodFirst(order, oks, l, m, good);
    NoFailureAt(order[..m] + l, good, m);
    if LocalRun(Serve(locks, env, Sent(order, oks)).calls, locks, local, good) {
      SameCalls(locks, order[..m] + l, m, local, FirstFalse(Outcomes(local, good)));
    }
  }

  lemma GoodFirst(order: seq<Key>, oks: seq<bool>, l: seq<Key>, m: nat, good: set<Key>)
    requires |order| == |oks| && m < FirstFalse(oks) && Agrees(good, order, oks)
    requires Orders(l, Elements(order[m..])) && (l != [] ==> l[0] !in order[FirstFalse(oks)..])
    ensures l != [] && l[0] in good
  {
    Members(l, order[m..]);
    assert order[m] == order[m..][0] && order[m] in l;
    var j := InTail(order, m, l[0]);
    TailHas(order, FirstFalse(oks));
  }

  /** Some local run that agrees with the inits the client has run makes these calls. */
  ghost predicate LikeLocal(calls: seq<Event>, locks: map<Key, Lock>, order: seq<Key>, oks: seq<bool>)
    requires |order| == |oks|
  {
    exists local: seq<Key>, good: set<Key> :: Agrees(good, order, oks) && LocalRun(calls, locks, local, good)
  }

  /** The exact condition for the remote control to behave like the local one. */
  lemma RemoteExactly(locks: map<Key, Lock>, env: Env, order: seq<Key>, oks: seq<bool>)
    requires Composed(locks, env, order, oks)
    ensures LikeLocal(Serve(locks, env, Sent(order, oks)).calls, locks, order, oks) <==>
            FirstFalse(oks) <= Half(|oks|) || FailedFirst(env, order, oks)
  {
    if FirstFalse(oks) <= Half(|oks|) || FailedFirst(env, order, oks) {
      var local, good := RemoteRefinesLocal(locks, env, order, oks);
    } else {
      forall local: seq<Key>, good: set<Key> | Agrees(good, order, oks)
        ensures !LocalRun(Serve(locks, env, Sent(order, oks)).calls, locks, local, good)
      {
        RemoteDiverges(locks, env, order, oks, local, good);
      }
    }
  }

  /** With more successes than half of the gates won, rounded up, an init that has succeeded is always
      reported as failed. */
  lemma SuccessLost(locks: map<Key, Lock>, env: Env, order: seq<Key>, oks: seq<bool>) returns (j: nat)
    requires Composed(locks, env, order, oks) && FirstFalse(oks) > Half(|oks|)
    ensures Half(|oks|) <= j < FirstFalse(oks) && Result(order[j], false) in Serve(locks, env, Sent(order, oks)).calls
  {
    var l := ServedOrder(locks, env, order, oks);
    var m := Reads(0, oks);
    HalfBounds(0, |oks|);
    j := m;
    Members(l, order[m..]);
    assert order[m] == order[m..][0] && order[m] in l;
    var i :| 0 <= i < |l| && l[i] == order[m];
    LocalResultAt(order[..m] + l, m, m + i);
    assert LocalCalls(locks, order[..m] + l, m)[1 + (m + i)] == LocalResults(order[..m] + l, m)[m + i];
  }

  /** The whole session of one remote request: the calls of a local run, and for a request that wins
      at most one gate a clean end of the stream unless its init fails. */
  lemma {:induction false} RemoteSession(targets: map<Key, AcquireOp>, env: Env, order: seq<Key>, oks: seq<bool>) returns (local: seq<Key>, good: set<Key>)
    requires ValidTargets(targets) && env.lockOk && Composed(Grants(targets, env.won), env, order, oks)
    requires FirstFalse(oks) <= Half(|oks|) || FailedFirst(env, order, oks)
    ensures var (calls, outcome) := Session([Got(Acquire(targets))] + Sent(order, oks), [env]);
            && Agrees(good, order, oks) && LocalRun(calls, Grants(targets, env.won), local, good)
            && (|order| <= 1 ==> outcome == if FirstFalse(oks) < |oks| then Failed else Closed)
  {
    var locks, inbox := Grants(targets, env.won), [Got(Acquire(targets))] + Sent(order, oks);
    assert inbox[1..] == Sent(order, oks);
    local, good := RemoteRefinesLocal(locks, env, order, oks);
    var v := Serve(locks, env, inbox[1..]);
    assert v.calls + [] == v.calls;
    SessionOne(targets, env, inbox);
    if |order| <= 1 {
      ServedToEnd(locks, env, order, oks);
      assert inbox[1 + v.used..] == Sent(order, oks)[v.used..];
    }
  }
}
