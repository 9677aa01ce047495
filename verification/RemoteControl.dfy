/** The beacon client's half of the container-lock protocol composed with the server session: what the
    client sends, and how much of it the server reads. */
module RemoteControls {
  import opened Basics
  import opened LockValues
  import opened AcquireSessions
  import opened SessionBalances

  // ----- the client

  function OpOf(m: Mode): AcquireOp {
    if m.exclusive then (if m.init then InitLockOp else LockOp)
    else (if m.init then InitSharedLockOp else SharedLockOp)
  }

  /** A request passes the wire unchanged: the server asks the locker for what the caller asked. */
  lemma WireModes(modes: map<Key, Mode>, won: set<Key>)
    requires "" !in modes
    ensures var targets := map k | k in modes :: OpOf(modes[k]);
            && ValidTargets(targets)
            && Grants(targets, won) == map k | k in modes :: NewLock(modes[k], modes[k].init && k in won)
  {
    var targets := map k | k in modes :: OpOf(modes[k]);
    assert forall k :: k in modes ==> ModeOf(targets[k]) == Some(modes[k]);
  }

  /** The first init that fails, or their number. */
  function FirstFalse(oks: seq<bool>): (f: nat)
    ensures f <= |oks| && (f < |oks| ==> !oks[f]) && forall i :: 0 <= i < f ==> oks[i]
  {
    if oks == [] then 0 else if !oks[0] then 0 else 1 + FirstFalse(oks[1..])
  }

  /** How many inits the client runs. */
  function Runs(oks: seq<bool>): nat {
    var f := FirstFalse(oks);
    if f < |oks| then f + 1 else f
  }

  /** What the client sends after the grant, `order` being its order of the gates won: one result per
      init it runs, then either the end of the stream or, at the caller's unlock, a release. */
  function Sent(order: seq<Key>, oks: seq<bool>): seq<Recv>
    requires |order| == |oks|
  {
    if order == [] then [Got(Release), Eof]
    else if oks[0] then [Got(Init(order[0], true))] + Sent(order[1..], oks[1..])
    else [Got(Init(order[0], false)), Eof]
  }

  /** The client's loop over the answer. */
  method RunInits(order: seq<Key>, oks: seq<bool>) returns (sent: seq<Recv>, failed: bool)
    requires |order| == |oks|
    ensures sent == Sent(order, oks)
    ensures failed <==> FirstFalse(oks) < |oks|
  {
    sent, failed := [], false;
    var i := 0;
    assert order[0..] == order && oks[0..] == oks && [] + Sent(order, oks) == Sent(order, oks);
    while i < |order|
      invariant 0 <= i <= |order|
      invariant Sent(order, oks) == sent + Sent(order[i..], oks[i..])
      invariant forall j :: 0 <= j < i ==> oks[j]
    {
      assert order[i..][1..] == order[i + 1..] && oks[i..][1..] == oks[i + 1..];
      sent := sent + [Got(Init(order[i], oks[i]))];
      if !oks[i] {
        sent := sent + [Eof];
        return sent, true;
      }
      i := i + 1;
    }
    sent := sent + [Got(Release), Eof];
  }

  // ----- the local control

  /** The results the local control reports over its own order of the gates won. */
  function LocalResults(order: seq<Key>, f: nat): seq<Event> {
    seq(|order|, j requires 0 <= j < |order| => Result(order[j], j < f))
  }

  /** All calls of one local request, from its grant to its release. */
  function LocalCalls(locks: map<Key, Lock>, order: seq<Key>, f: nat): seq<Event> {
    [Acquired(locks)] + LocalResults(order, f) + [Released]
  }

  // ----- what the server reads

  /** An iteration order of a key set. */
  ghost predicate Orders(order: seq<Key>, keys: set<Key>) {
    Distinct(order) && keys == Elements(order)
  }

  lemma OrdersTail(order: seq<Key>, keys: set<Key>)
    requires Orders(order, keys) && order != []
    ensures Orders(order[1..], keys - {order[0]}) && order[0] in keys
  {
    assert order == [order[0]] + order[1..];
  }

  lemma {:induction false} OrdersSize(order: seq<Key>, keys: set<Key>)
    requires Orders(order, keys)
    ensures |keys| == |order|
  {
    if order != [] {
      OrdersTail(order, keys);
      OrdersSize(order[1..], keys - {order[0]});
    }
  }

  lemma OrdersCons(k: Key, order: seq<Key>, keys: set<Key>)
    requires Orders(order, keys) && k !in keys
    ensures Orders([k] + order, keys + {k})
  {
    assert ([k] + order)[1..] == order;
  }

  /** The number of results the server reads when none of them is a failure. */
  function Half(n: nat): nat {
    (n + 1) / 2
  }

  function Min(a: nat, b: nat): nat {
    if a < b then a else b
  }

  /** The first `m` results of the client have been read and reported. */
  ghost predicate ReadFirst(p: InitPhase, order: seq<Key>, oks: seq<bool>, m: nat)
    requires m <= |order| == |oks|
  {
    && p.stop == Ended && p.used == m && Orders(order[m..], p.left)
    && |p.results| == m && forall j :: 0 <= j < m ==> p.results[j] == Result(order[j], oks[j])
  }

  lemma ReadMore(p: InitPhase, q: InitPhase, order: seq<Key>, oks: seq<bool>, m: nat)
    requires m < |order| == |oks| && ReadFirst(q, order[1..], oks[1..], m)
    requires p == InitPhase([Result(order[0], oks[0])] + q.results, q.left, q.used + 1, q.stop)
    ensures ReadFirst(p, order, oks, m + 1)
  {
    assert order[1..][m..] == order[m + 1..];
  }

  lemma ReadNone(p: InitPhase, order: seq<Key>, oks: seq<bool>, left: set<Key>)
    requires |order| == |oks| && Orders(order, left) && p == InitPhase([], left, 0, Ended)
    ensures ReadFirst(p, order, oks, 0)
  {
    assert order[0..] == order;
  }

  lemma ReadStop(p: InitPhase, order: seq<Key>, oks: seq<bool>, left: set<Key>)
    requires |order| == |oks| && order != [] && !oks[0] && Orders(order[1..], left - {order[0]})
    requires p == InitPhase([Result(order[0], false)], left - {order[0]}, 1, Ended)
    ensures ReadFirst(p, order, oks, 1)
  {
  }

  lemma RunsTail(oks: seq<bool>)
    requires oks != []
    ensures Runs(oks) == if oks[0] then 1 + Runs(oks[1..]) else 1
  {
  }

  /** How many of the client's next results the server reads, having read `i` before. */
  function Reads(i: nat, oks: seq<bool>): nat
  {
    if i >= |oks| then 0 else Min(Runs(oks), Half(i + |oks|) - i)
  }

  lemma ReadsTail(i: nat, oks: seq<bool>)
    requires i < |oks|
    ensures Reads(i, oks) == if oks[0] then 1 + Reads(i + 1, oks[1..]) else 1
  {
    HalfBounds(i, |oks|);
    HalfBounds(i + 1, |oks| - 1);
    RunsTail(oks);
  }

  lemma {:induction false} ReadsBounded(i: nat, oks: seq<bool>)
    ensures Reads(i, oks) <= |oks|
  {
    HalfBounds(i, |oks|);
  }

  /** With `i` results read and `left` winners to go, the server reads the client's next results up
      to the first failure, but no further than its counter allows. */
  lemma {:induction false} ServerReads(granted: set<Key>, i: nat, left: set<Key>, order: seq<Key>, oks: seq<bool>)
    requires Orders(order, left) && |order| == |oks| && left <= granted
    ensures Reads(i, oks) <= |oks|
    ensures ReadFirst(ReadResults(granted, i, left, Sent(order, oks)), order, oks, Reads(i, oks))
    decreases |order|
  {
    ReadsBounded(i, oks);
    OrdersSize(order, left);
    if i >= |order| {
      ReadNone(ReadResults(granted, i, left, Sent(order, oks)), order, oks, left);
    } else {
      OrdersTail(order, left);
      ReadsTail(i, oks);
      if oks[0] {
        ServerReads(granted, i + 1, left - {order[0]}, order[1..], oks[1..]);
        ReadNext(granted, i, left, order, oks, Reads(i + 1, oks[1..]));
      } else {
        ReadOne(granted, i, left, order, oks);
        ReadStop(ReadResults(granted, i, left, Sent(order, oks)), order, oks, left);
      }
    }
  }

  lemma ReadNext(granted: set<Key>, i: nat, left: set<Key>, order: seq<Key>, oks: seq<bool>, m: nat)
    requires m < |order| == |oks| && order[0] in granted && i < |left| && oks[0]
    requires ReadFirst(ReadResults(granted, i + 1, left - {order[0]}, Sent(order[1..], oks[1..])), order[1..], oks[1..], m)
    ensures ReadFirst(ReadResults(granted, i, left, Sent(order, oks)), order, oks, m + 1)
  {
    ReadOne(granted, i, left, order, oks);
    ReadMore(ReadResults(granted, i, left, Sent(order, oks)),
             ReadResults(granted, i + 1, left - {order[0]}, Sent(order[1..], oks[1..])), order, oks, m);
  }

  lemma HalfBounds(i: nat, n: nat)
    ensures Half(i + n) <= i + n
    ensures i < n ==> Half(i + n) >= i + 1
    ensures i >= n ==> Half(i + n) <= i
  {
  }

  /** The server's loop on the client's next message. */
  lemma ReadOne(granted: set<Key>, i: nat, left: set<Key>, order: seq<Key>, oks: seq<bool>)
    requires |order| == |oks| && order != [] && order[0] in granted && i < |left|
    ensures var p := ReadResults(granted, i, left, Sent(order, oks));
            if oks[0] then
              var q := ReadResults(granted, i + 1, left - {order[0]}, Sent(order[1..], oks[1..]));
              p == InitPhase([Result(order[0], true)] + q.results, q.left, q.used + 1, q.stop)
            else p == InitPhase([Result(order[0], false)], left - {order[0]}, 1, Ended)
  {
    if oks[0] {
      assert Sent(order, oks)[1..] == Sent(order[1..], oks[1..]);
    }
  }

  /** The leftovers, in the server's own order. */
  function Leftovers(order: seq<Key>, left: set<Key>): seq<Key> {
    if order == [] then []
    else (if order[0] in left then [order[0]] else []) + Leftovers(order[1..], left)
  }

  lemma {:induction false} FailsAre(order: seq<Key>, left: set<Key>)
    ensures |Fails(order, left)| == |Leftovers(order, left)|
    ensures forall j :: 0 <= j < |Fails(order, left)| ==> Fails(order, left)[j] == Result(Leftovers(order, left)[j], false)
  {
    if order != [] {
      FailsAre(order[1..], left);
      var fails, rest := Fails(order[1..], left), Leftovers(order[1..], left);
      if order[0] in left {
        assert Fails(order, left) == [Result(order[0], false)] + fails && Leftovers(order, left) == [order[0]] + rest;
      } else {
        assert Fails(order, left) == fails && Leftovers(order, left) == rest;
      }
    }
  }

  /** Two leftovers stand in the order in which the server comes to their keys. */
  lemma {:induction false} LeftoversInOrder(order: seq<Key>, left: set<Key>, a: nat, b: nat) returns (i: nat, j: nat)
    requires a < b < |Leftovers(order, left)|
    ensures i < j < |order| && order[i] == Leftovers(order, left)[a] && order[j] == Leftovers(order, left)[b]
  {
    if order[0] !in left {
      i, j := LeftoversInOrder(order[1..], left, a, b);
      i, j := i + 1, j + 1;
    } else if a > 0 {
      i, j := LeftoversInOrder(order[1..], left, a - 1, b - 1);
      i, j := i + 1, j + 1;
    } else {
      i := 0;
      j := LeftoverAt(order[1..], left, b - 1);
      j := j + 1;
    }
  }

  lemma {:induction false} LeftoverAt(order: seq<Key>, left: set<Key>, b: nat) returns (j: nat)
    requires b < |Leftovers(order, left)|
    ensures j < |order| && order[j] == Leftovers(order, left)[b]
  {
    if order[0] in left && b == 0 {
      j := 0;
    } else {
      j := LeftoverAt(order[1..], left, if order[0] in left then b - 1 else b);
      j := j + 1;
    }
  }

  lemma {:induction false} LeftoversOrder(order: seq<Key>, all: set<Key>, left: set<Key>)
    requires Orders(order, all)
    ensures Orders(Leftovers(order, left), left * all)
  {
    if order == [] {
      assert left * all == {};
    } else {
      OrdersTail(order, all);
      LeftoversOrder(order[1..], all - {order[0]}, left);
      if order[0] in left {
        OrdersCons(order[0], Leftovers(order[1..], left), left * (all - {order[0]}));
        assert left * all == left * (all - {order[0]}) + {order[0]};
      } else {
        assert Leftovers(order, left) == Leftovers(order[1..], left);
        assert left * all == left * (all - {order[0]});
      }
    }
  }

  // ----- refinement, exactly

  /** Request, grant and client are those of one run: the gates won are served in the client's order
      `order` with results `oks`, and in the server's order `env.order`. */
  ghost predicate Composed(locks: map<Key, Lock>, env: Env, order: seq<Key>, oks: seq<bool>) {
    env.sendOk && Orders(order, Winners(locks)) && Orders(env.order, Winners(locks)) && |order| == |oks|
  }

  lemma {:induction false} SentEnd(order: seq<Key>, oks: seq<bool>)
    requires |order| == |oks|
    ensures Runs(oks) < |Sent(order, oks)|
    ensures Sent(order, oks)[Runs(oks)] == if FirstFalse(oks) < |oks| then Eof else Got(Release)
  {
    if order != [] && oks[0] {
      SentEnd(order[1..], oks[1..]);
      RunsTail(oks);
    }
  }

  lemma {:induction false} NoFails(order: seq<Key>)
    ensures Fails(order, {}) == []
  {
    if order != [] {
      NoFails(order[1..]);
    }
  }

  /** The server's calls for one request: the results it read, the leftovers as failures, release. */
  lemma ServerCalls(locks: map<Key, Lock>, env: Env, order: seq<Key>, oks: seq<bool>) returns (p: InitPhase)
    requires Composed(locks, env, order, oks)
    ensures Reads(0, oks) <= |oks| && ReadFirst(p, order, oks, Reads(0, oks))
    ensures var v := Serve(locks, env, Sent(order, oks));
            && v.calls == [Acquired(locks)] + p.results + Fails(env.order, p.left) + [Released]
            && (p.left != {} ==> v.outcome.None? && v.used == p.used)
  {
    var msgs := Sent(order, oks);
    ServerReads(locks.Keys, 0, Winners(locks), order, oks);
    p := ReadResults(locks.Keys, 0, Winners(locks), msgs);
    if p.left == {} {
      OrdersSize(order[p.used..], p.left);
      SentEnd(order, oks);
      HalfBounds(0, |oks|);
      NoFails(env.order);
      assert p.used == Runs(oks) == |oks|;
      assert [Acquired(locks)] + p.results + [] == [Acquired(locks)] + p.results;
    }
  }

  lemma LeftAmong(order: seq<Key>, all: set<Key>, m: nat, left: set<Key>)
    requires Orders(order, all) && m <= |order| && Orders(order[m..], left)
    ensures left <= all
  {
    forall k | k in left ensures k in all {
      assert k in order[m..];
    }
  }

  lemma Assembled(first: Event, a: seq<Event>, b: seq<Event>, last: Event)
    ensures [first] + a + b + [last] == [first] + (a + b) + [last]
  {
  }

  lemma SideBySide(results: seq<Event>, fails: seq<Event>, order: seq<Key>, f: nat, m: nat)
    requires f <= m == |results| && |order| == m + |fails|
    requires forall j :: 0 <= j < m ==> results[j] == Result(order[j], j < f)
    requires forall j :: 0 <= j < |fails| ==> fails[j] == Result(order[m..][j], false)
    ensures results + fails == LocalResults(order, f)
  {
    var both, local := results + fails, LocalResults(order, f);
    forall j | 0 <= j < |order| ensures both[j] == local[j] {
      if j >= m {
        assert both[j] == fails[j - m] && order[m..][j - m] == order[j];
      }
    }
  }

  /** With at most one gate won the server reads up to the end of the stream, which it takes for an
      error where the one init has failed. */
  lemma {:induction false} ServedToEnd(locks: map<Key, Lock>, env: Env, order: seq<Key>, oks: seq<bool>)
    requires Composed(locks, env, order, oks) && |order| <= 1
    ensures var v, msgs := Serve(locks, env, Sent(order, oks)), Sent(order, oks);
            && v.used < |msgs| && msgs[v.used].Eof?
            && v.outcome == if FirstFalse(oks) < |oks| then Some(Failed) else None
  {
    OrdersSize(order, Winners(locks));
    if |order| == 1 {
      var k := order[0];
      assert order == [k] && Winners(locks) == {k} && k in locks;
      assert order[1..] == [] && Sent(order[1..], oks[1..]) == [Got(Release), Eof];
      var msgs := Sent(order, oks);
      assert {k} - {k} == {};
      ReadOne(locks.Keys, 0, {k}, order, oks);
      assert ReadResults(locks.Keys, 1, {k} - {k}, Sent(order[1..], oks[1..])) == InitPhase([], {}, 0, Ended);
      var p := ReadResults(locks.Keys, 0, {k}, msgs);
      assert p.left == {} && p.used == 1 && p.stop == Ended;
    }
  }

  /** With two or more gates won and every init successful, the server has given everything back and
      waits for a new request while results and the client's release are still on their way. */
  lemma EarlyRelease(locks: map<Key, Lock>, env: Env, order: seq<Key>, oks: seq<bool>)
    requires Composed(locks, env, order, oks) && FirstFalse(oks) == |oks| >= 2
    ensures var v := Serve(locks, env, Sent(order, oks));
            v.outcome.None? && v.used == Half(|oks|) < |oks| && Settled(Book(EMPTY, v.calls))
  {
    var p := ServerCalls(locks, env, order, oks);
    HalfBounds(0, |oks|);
    OrdersSize(order[p.used..], p.left);
    ServeBalanced(EMPTY, locks, env, Sent(order, oks));
  }
}
