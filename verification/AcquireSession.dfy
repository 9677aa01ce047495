/** The container-lock session of the beacon server: acquire, a phase of init results, release. */
module AcquireSessions {
  import opened Basics
  import opened LockValues

  datatype AcquireOp = LockOp | InitLockOp | SharedLockOp | InitSharedLockOp | OtherOp

  /** `Blank` is a request whose parameter is not set. */
  datatype Msg = Acquire(targets: map<Key, AcquireOp>) | Init(key: Key, ok: bool) | Release | Blank

  datatype Recv = Got(msg: Msg) | Eof | Broken

  /** Calls made on the locker. */
  datatype Event = Acquired(locks: map<Key, Lock>) | Result(key: Key, ok: bool) | Released

  /** How the handler ends: `Rejected` is the refusal of a non-release message after the init phase,
      `Crashed` the nil dereference on an init result for a key that was not requested. */
  datatype Outcome = Closed | Failed | Rejected | Crashed

  /** What the environment decides about one acquire message: whether the locks are granted, which
      gates are won, whether the answer can be sent, and the iteration order of the leftovers. */
  datatype Env = Env(lockOk: bool, won: set<Key>, sendOk: bool, order: seq<Key>)

  function ModeOf(op: AcquireOp): Option<Mode> {
    match op
    case LockOp => Some(Mode(true, false))
    case InitLockOp => Some(Mode(true, true))
    case SharedLockOp => Some(Mode(false, false))
    case InitSharedLockOp => Some(Mode(false, true))
    case OtherOp => None
  }

  predicate ValidTargets(targets: map<Key, AcquireOp>) {
    forall k :: k in targets ==> k != "" && targets[k] != OtherOp
  }

  /** The locks a granted request obtains. */
  function Grants(targets: map<Key, AcquireOp>, won: set<Key>): map<Key, Lock>
    requires ValidTargets(targets)
  {
    map k | k in targets :: NewLock(ModeOf(targets[k]).value, ModeOf(targets[k]).value.init && k in won)
  }

  function Winners(locks: map<Key, Lock>): set<Key> {
    set k | k in locks && locks[k].init
  }

  // ----- what the session does

  datatype Stop = Ended | Aborted | Invalid | Panicked

  /** Outcome of the init loop: the results reported, the winners left over, the messages read. */
  datatype InitPhase = InitPhase(results: seq<Event>, left: set<Key>, used: nat, stop: Stop)

  /** The init loop compares its counter with the number of winners that are still left. */
  function ReadResults(granted: set<Key>, i: nat, left: set<Key>, msgs: seq<Recv>): (p: InitPhase)
    ensures p.used <= |msgs| && p.left <= left
    decreases |msgs|
  {
    if i >= |left| then InitPhase([], left, 0, Ended)
    else if msgs == [] then InitPhase([], left, 0, Aborted)
    else if !msgs[0].Got? then InitPhase([], left, 1, Aborted)
    else
      match msgs[0].msg
      case Init(k, ok) =>
        if k !in granted then InitPhase([], left, 1, Panicked)
        else if !ok then InitPhase([Result(k, false)], left - {k}, 1, Ended)
        else
          var p := ReadResults(granted, i + 1, left - {k}, msgs[1..]);
          InitPhase([Result(k, true)] + p.results, p.left, p.used + 1, p.stop)
      case Release => InitPhase([], left, 1, Ended)
      case _ => InitPhase([], left, 1, Invalid)
  }

  /** The leftovers in iteration order, all reported as failed. */
  function Fails(order: seq<Key>, left: set<Key>): seq<Event> {
    if order == [] then []
    else (if order[0] in left then [Result(order[0], false)] else []) + Fails(order[1..], left)
  }

  /** One request from its grant on: the calls made, the messages read, and the handler's outcome
      unless it goes back to the head of its loop. */
  datatype Served = Served(calls: seq<Event>, used: nat, outcome: Option<Outcome>)

  function Serve(locks: map<Key, Lock>, env: Env, msgs: seq<Recv>): (v: Served)
    ensures v.used <= |msgs|
  {
    if !env.sendOk then Served([Acquired(locks), Released], 0, Some(Failed))
    else
      var p := ReadResults(locks.Keys, 0, Winners(locks), msgs);
      var calls := [Acquired(locks)] + p.results;
      match p.stop
      case Aborted => Served(calls + [Released], p.used, Some(Failed))
      case Panicked => Served(calls, p.used, Some(Crashed))
      case Invalid => Served(calls + Fails(env.order, p.left) + [Released], p.used, Some(Failed))
      case Ended =>
        if p.left != {} then Served(calls + Fails(env.order, p.left) + [Released], p.used, None)
        else if p.used == |msgs| || !msgs[p.used].Got? then Served(calls + [Released], p.used, Some(Failed))
        else if msgs[p.used].msg.Release? then Served(calls + [Released], p.used + 1, None)
        else Served(calls, p.used + 1, Some(Rejected))
  }

  /** A whole session over the messages of its stream; where they end the stream is broken. */
  function Session(inbox: seq<Recv>, env: seq<Env>): (seq<Event>, Outcome)
    decreases |inbox|
  {
    if inbox == [] || inbox[0].Broken? then ([], Failed)
    else if inbox[0].Eof? then ([], Closed)
    else if !inbox[0].msg.Acquire? || !ValidTargets(inbox[0].msg.targets) then ([], Failed)
    else if env == [] || !env[0].lockOk then ([], Failed)
    else
      var v := Serve(Grants(inbox[0].msg.targets, env[0].won), env[0], inbox[1..]);
      if v.outcome.Some? then (v.calls, v.outcome.value)
      else
        var (calls, outcome) := Session(inbox[1 + v.used..], env[1..]);
        (v.calls + calls, outcome)
  }

  // ----- the loops as they run

  /** The init loop with its shrinking set of winners. */
  method InitLoop(granted: set<Key>, winners: set<Key>, msgs: seq<Recv>) returns (p: InitPhase)
    ensures p == ReadResults(granted, 0, winners, msgs)
  {
    var left, results: seq<Event>, i, stop := winners, [], 0, Ended;
    ghost var goal := ReadResults(granted, 0, winners, msgs);
    while i < |left|
      invariant 0 <= i <= |msgs| && left <= winners && stop == Ended
      invariant var rest := ReadResults(granted, i, left, msgs[i..]);
                goal == InitPhase(results + rest.results, rest.left, i + rest.used, rest.stop)
      decreases |msgs| - i
    {
      if i == |msgs| {
        return InitPhase(results, left, i, Aborted);
      }
      var req := msgs[i];
      assert msgs[i..][0] == req && msgs[i..][1..] == msgs[i + 1..];
      ghost var rest := ReadResults(granted, i, left, msgs[i..]);
      if !req.Got? {
        return InitPhase(results, left, i + 1, Aborted);
      }
      match req.msg {
        case Init(k, ok) =>
          if k !in granted {
            return InitPhase(results, left, i + 1, Panicked);
          }
          if !ok {
            return InitPhase(results + [Result(k, false)], left - {k}, i + 1, Ended);
          }
          ghost var next := ReadResults(granted, i + 1, left - {k}, msgs[i + 1..]);
          assert rest == InitPhase([Result(k, true)] + next.results, next.left, next.used + 1, next.stop);
          assert results + ([Result(k, true)] + next.results) == results + [Result(k, true)] + next.results;
          results, left := results + [Result(k, true)], left - {k};
        case Release =>
          return InitPhase(results, left, i + 1, Ended);
        case _ =>
          return InitPhase(results, left, i + 1, Invalid);
      }
      i := i + 1;
    }
    p := InitPhase(results, left, i, Ended);
  }

  /** Reports every leftover as failed. */
  method FailLeft(order: seq<Key>, left: set<Key>) returns (fails: seq<Event>)
    ensures fails == Fails(order, left)
  {
    fails := [];
    assert order[0..] == order && [] + Fails(order, left) == Fails(order, left);
    for i := 0 to |order|
      invariant fails + Fails(order[i..], left) == Fails(order, left)
    {
      assert order[i..][1..] == order[i + 1..];
      ghost var tail := Fails(order[i + 1..], left);
      if order[i] in left {
        assert fails + ([Result(order[i], false)] + tail) == fails + [Result(order[i], false)] + tail;
        fails := fails + [Result(order[i], false)];
      } else {
        assert [] + tail == tail;
      }
    }
  }

  /** The handling of one granted request. */
  method ServeOne(locks: map<Key, Lock>, env: Env, msgs: seq<Recv>) returns (v: Served)
    ensures v == Serve(locks, env, msgs)
  {
    if !env.sendOk {
      return Served([Acquired(locks), Released], 0, Some(Failed));
    }
    var p := InitLoop(locks.Keys, Winners(locks), msgs);
    var calls := [Acquired(locks)] + p.results;
    if p.stop.Aborted? {
      return Served(calls + [Released], p.used, Some(Failed));
    } else if p.stop.Panicked? {
      return Served(calls, p.used, Some(Crashed));
    }
    var fails := FailLeft(env.order, p.left);
    if p.stop.Invalid? {
      return Served(calls + fails + [Released], p.used, Some(Failed));
    } else if p.left != {} {
      return Served(calls + fails + [Released], p.used, None);
    } else if p.used == |msgs| || !msgs[p.used].Got? {
      return Served(calls + [Released], p.used, Some(Failed));
    } else if msgs[p.used].msg.Release? {
      return Served(calls + [Released], p.used + 1, None);
    }
    v := Served(calls, p.used + 1, Some(Rejected));
  }

  lemma Appended(a: seq<Event>, b: seq<Event>, c: seq<Event>)
    ensures a + (b + c) == a + b + c
  {
  }

  /** One request of a session, after the calls in `done`. */
  lemma {:induction false} SessionStep(done: seq<Event>, inbox: seq<Recv>, env: seq<Env>)
    requires inbox != [] && inbox[0].Got? && inbox[0].msg.Acquire? && ValidTargets(inbox[0].msg.targets)
    requires env != [] && env[0].lockOk
    ensures var v, all := Serve(Grants(inbox[0].msg.targets, env[0].won), env[0], inbox[1..]), Session(inbox, env);
            if v.outcome.Some? then all == (v.calls, v.outcome.value)
            else
              var rest := Session(inbox[1 + v.used..], env[1..]);
              done + all.0 == done + v.calls + rest.0 && all.1 == rest.1
  {
    var v := Serve(Grants(inbox[0].msg.targets, env[0].won), env[0], inbox[1..]);
    if v.outcome.None? {
      var rest := Session(inbox[1 + v.used..], env[1..]);
      assert Session(inbox, env) == (v.calls + rest.0, rest.1);
      Appended(done, v.calls, rest.0);
    }
  }

  /** The handler: one request after another until the stream ends or a request is refused. */
  method Handle(inbox: seq<Recv>, env: seq<Env>) returns (calls: seq<Event>, outcome: Outcome)
    ensures (calls, outcome) == Session(inbox, env)
  {
    calls := [];
    var msgs, envs := inbox, env;
    ghost var all := Session(inbox, env);
    assert [] + all.0 == all.0;
    while msgs != [] && msgs[0].Got?
      invariant calls + Session(msgs, envs).0 == all.0 && Session(msgs, envs).1 == all.1
      decreases |msgs|
    {
      if !msgs[0].msg.Acquire? || !ValidTargets(msgs[0].msg.targets) || envs == [] || !envs[0].lockOk {
        assert calls + [] == calls;
        return calls, Failed;
      }
      SessionStep(calls, msgs, envs);
      var v := ServeOne(Grants(msgs[0].msg.targets, envs[0].won), envs[0], msgs[1..]);
      if v.outcome.Some? {
        return calls + v.calls, v.outcome.value;
      }
      calls, msgs, envs := calls + v.calls, msgs[1 + v.used..], envs[1..];
    }
    assert calls + [] == calls;
    outcome := if msgs != [] && msgs[0].Eof? then Closed else Failed;
  }

  /** A session in which one request is granted makes the calls of that request. */
  lemma {:induction false} SessionOne(targets: map<Key, AcquireOp>, env: Env, inbox: seq<Recv>)
    requires ValidTargets(targets) && env.lockOk && inbox != [] && inbox[0] == Got(Acquire(targets))
    ensures var v := Serve(Grants(targets, env.won), env, inbox[1..]);
            Session(inbox, [env]) ==
            (v.calls, if v.outcome.Some? then v.outcome.value else Session(inbox[1 + v.used..], []).1)
  {
    var v := Serve(Grants(targets, env.won), env, inbox[1..]);
    assert v.calls + [] == v.calls && [env][1..] == [];
  }
}
