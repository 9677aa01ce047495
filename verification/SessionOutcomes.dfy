/** How a request of a container-lock session ends and how many messages it reads, and how the session
    ends, in terms of the messages alone. */
module SessionOutcomes {
  import opened Basics
  import opened LockValues
  import opened AcquireSessions
  import opened SessionInputs
  import opened SessionBalances

  /** Message `c` is neither a result nor a release. */
  predicate Unfit(msgs: seq<Recv>, c: nat) {
    c < |msgs| && msgs[c].Got? && (msgs[c].msg.Acquire? || msgs[c].msg.Blank?)
  }

  /** Message `c` reports a failure of a requested key. */
  predicate Failure(granted: set<Key>, msgs: seq<Recv>, c: nat) {
    c < |msgs| && msgs[c].Got? && msgs[c].msg.Init? && !msgs[c].msg.ok && msgs[c].msg.key in granted
  }

  predicate Releases(msgs: seq<Recv>, c: nat) {
    c < |msgs| && msgs[c] == Got(Release)
  }

  /** The phase ends by its counter after `c` successes: it waited for each of them, and no more than
      `c` winners, less `i`, are left. */
  predicate RunsOut(granted: set<Key>, i: nat, left: set<Key>, msgs: seq<Recv>, c: nat) {
    && c <= |msgs| && (forall j :: 0 <= j < c ==> Success(granted, msgs[j]))
    && i + c >= |left - Named(msgs[..c])|
    && (c > 0 ==> Expects(granted, i, left, msgs, c - 1))
  }

  // ----- where the phase ends

  lemma {:induction false} NamedGrows(msgs: seq<Recv>, c: nat, d: nat)
    requires c <= d <= |msgs|
    ensures Named(msgs[..c]) <= Named(msgs[..d])
  {
    if c > 0 {
      assert msgs[..c][1..] == msgs[1..][..c - 1] && msgs[..d][1..] == msgs[1..][..d - 1];
      NamedGrows(msgs[1..], c - 1, d - 1);
    } else {
      assert msgs[..c] == [];
    }
  }

  /** The phase has waited for everything before a message that it waits for. */
  lemma ExpectsBefore(granted: set<Key>, i: nat, left: set<Key>, msgs: seq<Recv>, c: nat, d: nat)
    requires c <= d && Expects(granted, i, left, msgs, d)
    ensures Expects(granted, i, left, msgs, c)
  {
    NamedGrows(msgs, c, d);
    var rest := left - Named(msgs[..c]);
    assert left - Named(msgs[..d]) == rest - Named(msgs[..d]);
    Fewer(rest, Named(msgs[..d]));
  }

  /** The phase ends at `c`: by its counter, or at a message that is not a success. */
  predicate PhaseEnds(granted: set<Key>, i: nat, left: set<Key>, msgs: seq<Recv>, c: nat) {
    || RunsOut(granted, i, left, msgs, c)
    || (Expects(granted, i, left, msgs, c) && (c == |msgs| || !Success(granted, msgs[c])))
  }

  /** It ends in one place only. */
  lemma OneEnd(granted: set<Key>, i: nat, left: set<Key>, msgs: seq<Recv>, c: nat, d: nat)
    requires PhaseEnds(granted, i, left, msgs, c) && PhaseEnds(granted, i, left, msgs, d)
    ensures c == d
  {
    NotEarlier(granted, i, left, msgs, c, d);
    NotEarlier(granted, i, left, msgs, d, c);
  }

  lemma NotEarlier(granted: set<Key>, i: nat, left: set<Key>, msgs: seq<Recv>, c: nat, d: nat)
    requires PhaseEnds(granted, i, left, msgs, c) && PhaseEnds(granted, i, left, msgs, d)
    ensures c >= d
  {
    if c < d {
      var e := if RunsOut(granted, i, left, msgs, d) then d - 1 else d;
      ExpectsBefore(granted, i, left, msgs, c, e);
    }
  }

  /** What the phase has done when it ends at `c`. */
  predicate PhaseIs(granted: set<Key>, i: nat, left: set<Key>, msgs: seq<Recv>, c: nat, p: InitPhase) {
    PhaseEnds(granted, i, left, msgs, c) &&
    var rest := left - Named(msgs[..c]);
    if RunsOut(granted, i, left, msgs, c) then p.stop == Ended && p.left == rest && p.used == c
    else if c == |msgs| then p.stop == Aborted && p.used == c
    else
      && p.used == c + 1
      && (Failure(granted, msgs, c) ==> p.stop == Ended && p.left == rest - {msgs[c].msg.key})
      && (Releases(msgs, c) ==> p.stop == Ended && p.left == rest)
      && (Unfit(msgs, c) ==> p.stop == Invalid)
      && (Foreign(granted, msgs, c) ==> p.stop == Panicked)
      && (!msgs[c].Got? ==> p.stop == Aborted)
  }

  lemma ReadMoreOf(granted: set<Key>, i: nat, left: set<Key>, msgs: seq<Recv>)
    requires i < |left| && msgs != [] && Success(granted, msgs[0])
    ensures var p, q := ReadResults(granted, i, left, msgs), ReadResults(granted, i + 1, left - {msgs[0].msg.key}, msgs[1..]);
            p.left == q.left && p.stop == q.stop && p.used == q.used + 1
  {
  }

  lemma RunsOutNext(granted: set<Key>, i: nat, left: set<Key>, msgs: seq<Recv>, c: nat)
    requires i < |left| && msgs != [] && Success(granted, msgs[0])
    ensures RunsOut(granted, i, left, msgs, c + 1) <==> RunsOut(granted, i + 1, left - {msgs[0].msg.key}, msgs[1..], c)
  {
    if c + 1 <= |msgs| {
      NamedHead(msgs, c + 1);
      var k, rest := msgs[0].msg.key, Named(msgs[1..][..c]);
      assert left - ({k} + rest) == (left - {k}) - rest;
      assert forall j :: 0 <= j < c ==> msgs[1..][j] == msgs[j + 1];
      if c > 0 {
        ExpectsNext(granted, i, left, msgs, c - 1);
      } else {
        ExpectsFirstOf(granted, i, left, msgs);
      }
    }
  }

  lemma ExpectsFirstOf(granted: set<Key>, i: nat, left: set<Key>, msgs: seq<Recv>)
    ensures Expects(granted, i, left, msgs, 0) <==> i < |left|
  {
    assert msgs[..0] == [] && left - Named([]) == left;
  }

  lemma PhaseLater(granted: set<Key>, i: nat, left: set<Key>, msgs: seq<Recv>, c: nat, p: InitPhase, q: InitPhase)
    requires i < |left| && msgs != [] && Success(granted, msgs[0])
    requires p.left == q.left && p.stop == q.stop && p.used == q.used + 1
    requires PhaseIs(granted, i + 1, left - {msgs[0].msg.key}, msgs[1..], c, q)
    ensures PhaseIs(granted, i, left, msgs, c + 1, p)
  {
    var k := msgs[0].msg.key;
    RunsOutNext(granted, i, left, msgs, c);
    ExpectsNext(granted, i, left, msgs, c);
    assert c + 1 <= |msgs| by {
      assert c <= |msgs[1..]|;
    }
    NamedHead(msgs, c + 1);
    assert left - ({k} + Named(msgs[1..][..c])) == (left - {k}) - Named(msgs[1..][..c]);
    assert c < |msgs[1..]| ==> msgs[1..][c] == msgs[c + 1];
  }

  lemma PhaseNow(granted: set<Key>, i: nat, left: set<Key>, msgs: seq<Recv>)
    requires i >= |left| || msgs == [] || !Success(granted, msgs[0])
    ensures PhaseIs(granted, i, left, msgs, 0, ReadResults(granted, i, left, msgs))
  {
    assert msgs[..0] == [] && left - Named([]) == left;
  }

  lemma {:induction false} PhaseOf(granted: set<Key>, i: nat, left: set<Key>, msgs: seq<Recv>) returns (c: nat)
    ensures PhaseIs(granted, i, left, msgs, c, ReadResults(granted, i, left, msgs))
    decreases |msgs|
  {
    if i < |left| && msgs != [] && Success(granted, msgs[0]) {
      var k := msgs[0].msg.key;
      c := PhaseOf(granted, i + 1, left - {k}, msgs[1..]);
      ReadMoreOf(granted, i, left, msgs);
      PhaseLater(granted, i, left, msgs, c, ReadResults(granted, i, left, msgs), ReadResults(granted, i + 1, left - {k}, msgs[1..]));
      c := c + 1;
    } else {
      c := 0;
      PhaseNow(granted, i, left, msgs);
    }
  }

  // ----- how a request ends

  /** The stream ends or breaks where a result or the release is awaited, or the message awaited as a
      result is neither a result nor a release. */
  ghost predicate FailsOn(locks: map<Key, Lock>, msgs: seq<Recv>) {
    || (exists c: nat :: Expects(locks.Keys, 0, Winners(locks), msgs, c) && (EndsAt(msgs, c) || Unfit(msgs, c)))
    || (AwaitsRelease(locks, msgs) && EndsAt(msgs, |Winners(locks)|))
  }

  /** After `used` messages the session is back at the head of its loop: an early release or a failure
      with winners left over; the counter of the phase with winners left over; or the release at the
      end. */
  predicate ContinuesAfter(locks: map<Key, Lock>, msgs: seq<Recv>, used: nat) {
    var granted, w := locks.Keys, Winners(locks);
    || (used > 0 && Expects(granted, 0, w, msgs, used - 1) && Releases(msgs, used - 1))
    || (used > 0 && Expects(granted, 0, w, msgs, used - 1) && Failure(granted, msgs, used - 1)
        && w - Named(msgs[..used - 1]) - {msgs[used - 1].msg.key} != {})
    || (RunsOut(granted, 0, w, msgs, used) && w - Named(msgs[..used]) != {})
    || (used == |w| + 1 && AwaitsRelease(locks, msgs) && Releases(msgs, |w|))
  }

  lemma OutcomeBy(locks: map<Key, Lock>, env: Env, msgs: seq<Recv>)
    ensures var v, p := Serve(locks, env, msgs), ReadResults(locks.Keys, 0, Winners(locks), msgs);
            && (v.outcome == Some(Failed) <==>
                || !env.sendOk || p.stop.Aborted? || p.stop.Invalid?
                || (p.stop.Ended? && p.left == {} && EndsAt(msgs, p.used)))
            && (v.outcome == None <==> env.sendOk && p.stop.Ended? && (p.left != {} || Releases(msgs, p.used)))
            && (v.outcome == None ==> v.used == if p.left != {} then p.used else p.used + 1)
  {
  }

  lemma PhaseFails(granted: set<Key>, left: set<Key>, msgs: seq<Recv>, d: nat, p: InitPhase)
    requires PhaseIs(granted, 0, left, msgs, d, p)
    ensures p.stop.Aborted? || p.stop.Invalid? <==>
            exists c: nat :: Expects(granted, 0, left, msgs, c) && (EndsAt(msgs, c) || Unfit(msgs, c))
  {
    if c: nat :| Expects(granted, 0, left, msgs, c) && (EndsAt(msgs, c) || Unfit(msgs, c)) {
      OneEnd(granted, 0, left, msgs, c, d);
    }
    if p.stop.Aborted? || p.stop.Invalid? {
      assert Expects(granted, 0, left, msgs, d) && (EndsAt(msgs, d) || Unfit(msgs, d));
    }
  }

  /** A request ends the handler with an error, its locks released, if and only if the answer cannot be
      sent or the messages fail it as above. */
  lemma {:induction false} FailedExactly(locks: map<Key, Lock>, env: Env, msgs: seq<Recv>)
    ensures Serve(locks, env, msgs).outcome == Some(Failed) <==> !env.sendOk || FailsOn(locks, msgs)
  {
    var p := ReadResults(locks.Keys, 0, Winners(locks), msgs);
    var d := PhaseOf(locks.Keys, 0, Winners(locks), msgs);
    OutcomeBy(locks, env, msgs);
    PhaseFails(locks.Keys, Winners(locks), msgs, d, p);
    NoneLeft(locks, msgs);
  }

  lemma PhaseLeaves(granted: set<Key>, left: set<Key>, msgs: seq<Recv>, d: nat, p: InitPhase, used: nat)
    requires PhaseIs(granted, 0, left, msgs, d, p) && left <= granted
    ensures p.stop.Ended? && p.left != {} && p.used == used <==>
            || (used > 0 && Expects(granted, 0, left, msgs, used - 1) && Releases(msgs, used - 1))
            || (used > 0 && Expects(granted, 0, left, msgs, used - 1) && Failure(granted, msgs, used - 1)
                && left - Named(msgs[..used - 1]) - {msgs[used - 1].msg.key} != {})
            || (RunsOut(granted, 0, left, msgs, used) && left - Named(msgs[..used]) != {})
  {
    if used > 0 && Expects(granted, 0, left, msgs, used - 1) && (Releases(msgs, used - 1) || Failure(granted, msgs, used - 1)) {
      OneEnd(granted, 0, left, msgs, used - 1, d);
    }
    if RunsOut(granted, 0, left, msgs, used) {
      OneEnd(granted, 0, left, msgs, used, d);
    }
  }

  /** The handler goes on after a request, having read so many messages, if and only if the answer was
      sent and the messages end the request as above. */
  lemma {:induction false} ContinuesExactly(locks: map<Key, Lock>, env: Env, msgs: seq<Recv>, used: nat)
    ensures var v := Serve(locks, env, msgs);
            v.outcome == None && v.used == used <==> env.sendOk && ContinuesAfter(locks, msgs, used)
  {
    var p := ReadResults(locks.Keys, 0, Winners(locks), msgs);
    var d := PhaseOf(locks.Keys, 0, Winners(locks), msgs);
    OutcomeBy(locks, env, msgs);
    PhaseLeaves(locks.Keys, Winners(locks), msgs, d, p, used);
    NoneLeft(locks, msgs);
  }

  // ----- how a session ends

  /** Which requests are refused before any lock is taken: an empty key, an operation that is none of
      the four, and what the locker refuses. */
  lemma OpensExactly(inbox: seq<Recv>, env: seq<Env>)
    ensures Opens(inbox, env) <==>
            && inbox != [] && inbox[0].Got? && inbox[0].msg.Acquire? && "" !in inbox[0].msg.targets
            && (forall k :: k in inbox[0].msg.targets ==>
                  var op := inbox[0].msg.targets[k];
                  op == LockOp || op == InitLockOp || op == SharedLockOp || op == InitSharedLockOp)
            && env != [] && env[0].lockOk
  {
  }

  /** The locks of a granted request, by its operations and the gates it won. */
  lemma GrantsAre(targets: map<Key, AcquireOp>, won: set<Key>, k: Key)
    requires ValidTargets(targets)
    ensures k in Grants(targets, won) <==> k in targets
    ensures k in targets ==>
              var l, op := Grants(targets, won)[k], targets[k];
              && (l.exclusive <==> op == LockOp || op == InitLockOp)
              && (l.init <==> (op == InitLockOp || op == InitSharedLockOp) && k in won)
              && (l.downgraded <==> !l.exclusive && !l.init)
  {
  }

  /** A session ends without an error if and only if the stream ends at a head of its loop; it is
      refused or ends with its last request otherwise. */
  lemma SessionEnds(inbox: seq<Recv>, env: seq<Env>, hs: seq<Head>)
    requires Trail(inbox, env, hs) && NextHead(hs[|hs| - 1]).None?
    ensures var h, outcome := hs[|hs| - 1], Session(inbox, env).1;
            && (outcome == Closed <==> h.inbox != [] && h.inbox[0] == Eof)
            && (!Opens(h.inbox, h.env) && (h.inbox == [] || h.inbox[0] != Eof) ==> outcome == Failed)
            && (Opens(h.inbox, h.env) ==>
                  var locks, env, msgs := LocksOf(h.inbox, h.env), h.env[0], h.inbox[1..];
                  && (outcome == Failed <==> !env.sendOk || FailsOn(locks, msgs))
                  && (outcome == Rejected <==> env.sendOk && RejectsOn(locks, msgs))
                  && (outcome == Crashed <==> env.sendOk && CrashesOn(locks, msgs)))
  {
    var h := hs[|hs| - 1];
    HeadSession(inbox, env, hs, |hs| - 1);
    if Opens(h.inbox, h.env) {
      var locks, env, msgs := LocksOf(h.inbox, h.env), h.env[0], h.inbox[1..];
      SessionStep(h.calls, h.inbox, h.env);
      FailedExactly(locks, env, msgs);
      RejectedExactly(locks, env, msgs);
      CrashedExactly(locks, env, msgs);
      NeverCloses(locks, env, msgs);
    }
  }

  lemma NeverCloses(locks: map<Key, Lock>, env: Env, msgs: seq<Recv>)
    ensures Serve(locks, env, msgs).outcome != Some(Closed)
  {
  }
}
