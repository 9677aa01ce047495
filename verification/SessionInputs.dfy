/** The init phase of a container-lock session in terms of the messages alone: which message it still
    waits for, where it breaks, and which streams make the server return without a release. */
module SessionInputs {
  import opened Basics
  import opened LockValues
  import opened AcquireSessions

  /** A successful result for a key that was requested. */
  predicate Success(granted: set<Key>, m: Recv) {
    m.Got? && m.msg.Init? && m.msg.ok && m.msg.key in granted
  }

  /** The keys named by the results among some messages. */
  function Named(msgs: seq<Recv>): set<Key> {
    if msgs == [] then {}
    else (if msgs[0].Got? && msgs[0].msg.Init? then {msgs[0].msg.key} else {}) + Named(msgs[1..])
  }

  /** The phase, `i` results before and `left` winners to go, waits for message `c`: all messages before
      it are successes, and they are fewer than the winners they leave. */
  predicate Expects(granted: set<Key>, i: nat, left: set<Key>, msgs: seq<Recv>, c: nat) {
    && c <= |msgs|
    && (forall j :: 0 <= j < c ==> Success(granted, msgs[j]))
    && i + c < |left - Named(msgs[..c])|
  }

  /** Message `c` is a result for a key that was not requested. */
  predicate Foreign(granted: set<Key>, msgs: seq<Recv>, c: nat) {
    c < |msgs| && msgs[c].Got? && msgs[c].msg.Init? && msgs[c].msg.key !in granted
  }

  /** The stream ends or breaks at message `c`. */
  predicate EndsAt(msgs: seq<Recv>, c: nat) {
    c >= |msgs| || !msgs[c].Got?
  }

  lemma NamedHead(msgs: seq<Recv>, c: nat)
    requires 0 < c <= |msgs| && msgs[0].Got? && msgs[0].msg.Init?
    ensures Named(msgs[..c]) == {msgs[0].msg.key} + Named(msgs[1..][..c - 1])
  {
    assert msgs[..c][1..] == msgs[1..][..c - 1];
  }

  /** Waiting for a message after the first is waiting for it in the rest. */
  lemma ExpectsNext(granted: set<Key>, i: nat, left: set<Key>, msgs: seq<Recv>, c: nat)
    requires msgs != [] && Success(granted, msgs[0])
    ensures Expects(granted, i, left, msgs, c + 1) <==> Expects(granted, i + 1, left - {msgs[0].msg.key}, msgs[1..], c)
  {
    if c + 1 <= |msgs| {
      NamedHead(msgs, c + 1);
      var k, rest := msgs[0].msg.key, Named(msgs[1..][..c]);
      assert left - ({k} + rest) == (left - {k}) - rest;
      assert forall j :: 0 <= j < c ==> msgs[1..][j] == msgs[j + 1];
    }
  }

  lemma Fewer(a: set<Key>, b: set<Key>)
    ensures |a - b| <= |a|
  {
    assert a == (a - b) + (a * b);
  }

  lemma ExpectsFirst(granted: set<Key>, i: nat, left: set<Key>, msgs: seq<Recv>, c: nat)
    requires Expects(granted, i, left, msgs, c)
    ensures i < |left|
  {
    Fewer(left, Named(msgs[..c]));
  }

  // ----- where the phase stops

  lemma ReadSuccess(granted: set<Key>, i: nat, left: set<Key>, msgs: seq<Recv>)
    requires i < |left| && msgs != [] && Success(granted, msgs[0])
    ensures var p, q := ReadResults(granted, i, left, msgs), ReadResults(granted, i + 1, left - {msgs[0].msg.key}, msgs[1..]);
            p.left == q.left && p.stop == q.stop
  {
  }

  /** The phase stops at message `c`, and these winners are left then. */
  predicate Stops(granted: set<Key>, i: nat, left: set<Key>, msgs: seq<Recv>, c: nat, p: InitPhase) {
    && Expects(granted, i, left, msgs, c) && p.left == left - Named(msgs[..c])
    && (if p.stop.Panicked? then Foreign(granted, msgs, c) else EndsAt(msgs, c))
  }

  lemma StopsLater(granted: set<Key>, i: nat, left: set<Key>, msgs: seq<Recv>, c: nat, p: InitPhase, q: InitPhase)
    requires msgs != [] && Success(granted, msgs[0]) && p.left == q.left && p.stop == q.stop
    requires Stops(granted, i + 1, left - {msgs[0].msg.key}, msgs[1..], c, q)
    ensures Stops(granted, i, left, msgs, c + 1, p)
  {
    ExpectsNext(granted, i, left, msgs, c);
    NamedHead(msgs, c + 1);
    var k, rest := msgs[0].msg.key, Named(msgs[1..][..c]);
    assert left - ({k} + rest) == (left - {k}) - rest;
  }

  /** If the phase stops at a broken stream or at a foreign key, it was waiting for that message. */
  lemma {:induction false} StopsAt(granted: set<Key>, i: nat, left: set<Key>, msgs: seq<Recv>) returns (c: nat)
    requires ReadResults(granted, i, left, msgs).stop.Aborted? || ReadResults(granted, i, left, msgs).stop.Panicked?
    ensures Stops(granted, i, left, msgs, c, ReadResults(granted, i, left, msgs))
    decreases |msgs|
  {
    if msgs != [] && Success(granted, msgs[0]) {
      var k := msgs[0].msg.key;
      ReadSuccess(granted, i, left, msgs);
      c := StopsAt(granted, i + 1, left - {k}, msgs[1..]);
      StopsLater(granted, i, left, msgs, c, ReadResults(granted, i, left, msgs), ReadResults(granted, i + 1, left - {k}, msgs[1..]));
      c := c + 1;
    } else {
      c := 0;
      StopsNow(granted, i, left, msgs);
    }
  }

  lemma StopsNow(granted: set<Key>, i: nat, left: set<Key>, msgs: seq<Recv>)
    requires msgs == [] || !Success(granted, msgs[0])
    requires ReadResults(granted, i, left, msgs).stop.Aborted? || ReadResults(granted, i, left, msgs).stop.Panicked?
    ensures Stops(granted, i, left, msgs, 0, ReadResults(granted, i, left, msgs))
  {
    assert msgs[..0] == [] && left - Named([]) == left;
  }

  /** And conversely. */
  lemma {:induction false} StopsThere(granted: set<Key>, i: nat, left: set<Key>, msgs: seq<Recv>, c: nat)
    requires Expects(granted, i, left, msgs, c) && (Foreign(granted, msgs, c) || EndsAt(msgs, c))
    ensures var p := ReadResults(granted, i, left, msgs);
            p.left == left - Named(msgs[..c]) && p.stop == if Foreign(granted, msgs, c) then Panicked else Aborted
    decreases |msgs|
  {
    ExpectsFirst(granted, i, left, msgs, c);
    if c > 0 {
      assert Success(granted, msgs[0]);
      var rest := left - {msgs[0].msg.key};
      ExpectsNext(granted, i, left, msgs, c - 1);
      StopsThere(granted, i + 1, rest, msgs[1..], c - 1);
      ThereNext(granted, i, left, msgs, c, ReadResults(granted, i + 1, rest, msgs[1..]));
    } else {
      ThereNow(granted, i, left, msgs);
    }
  }

  lemma ThereNext(granted: set<Key>, i: nat, left: set<Key>, msgs: seq<Recv>, c: nat, q: InitPhase)
    requires 0 < c <= |msgs| && i < |left| && Success(granted, msgs[0])
    requires q == ReadResults(granted, i + 1, left - {msgs[0].msg.key}, msgs[1..])
    requires q.left == left - {msgs[0].msg.key} - Named(msgs[1..][..c - 1])
    ensures var p := ReadResults(granted, i, left, msgs); p.left == left - Named(msgs[..c]) && p.stop == q.stop
  {
    ReadSuccess(granted, i, left, msgs);
    NamedHead(msgs, c);
    assert left - ({msgs[0].msg.key} + Named(msgs[1..][..c - 1])) == left - {msgs[0].msg.key} - Named(msgs[1..][..c - 1]);
  }

  lemma ThereNow(granted: set<Key>, i: nat, left: set<Key>, msgs: seq<Recv>)
    requires i < |left| && (Foreign(granted, msgs, 0) || EndsAt(msgs, 0))
    ensures var p := ReadResults(granted, i, left, msgs);
            p.left == left - Named(msgs[..0]) && p.stop == if Foreign(granted, msgs, 0) then Panicked else Aborted
  {
    assert msgs[..0] == [] && left - Named([]) == left;
  }

  // ----- streams that strand the locks

  /** A result names a key that was not requested, while results are expected. */
  ghost predicate CrashesOn(locks: map<Key, Lock>, msgs: seq<Recv>) {
    exists c: nat :: Expects(locks.Keys, 0, Winners(locks), msgs, c) && Foreign(locks.Keys, msgs, c)
  }

  /** Every winner has its result, which takes at most one message, so that the release is awaited. */
  predicate AwaitsRelease(locks: map<Key, Lock>, msgs: seq<Recv>) {
    var n := |Winners(locks)|;
    n <= 1 && n <= |msgs| && (n == 1 ==> msgs[0].Got? && msgs[0].msg.Init? && msgs[0].msg.key in Winners(locks))
  }

  /** The release is awaited, and the next message is another one. */
  predicate RejectsOn(locks: map<Key, Lock>, msgs: seq<Recv>) {
    var n := |Winners(locks)|;
    AwaitsRelease(locks, msgs) && n < |msgs| && msgs[n].Got? && !msgs[n].msg.Release?
  }

  /** With two or more winners some are left over wherever the phase ends. */
  lemma {:induction false} SomeLeft(granted: set<Key>, i: nat, left: set<Key>, msgs: seq<Recv>)
    requires |left| >= 2
    ensures ReadResults(granted, i, left, msgs).left != {}
    decreases |msgs|
  {
    if i < |left| && msgs != [] && msgs[0].Got? && msgs[0].msg.Init? && msgs[0].msg.key in granted {
      var rest := left - {msgs[0].msg.key};
      OneLess(left, msgs[0].msg.key);
      if |rest| >= 2 {
        SomeLeft(granted, i + 1, rest, msgs[1..]);
      }
    }
  }

  lemma OneLess(left: set<Key>, k: Key)
    ensures |left - {k}| >= |left| - 1
  {
    assert left <= (left - {k}) + {k};
    assert left == (left - {k}) + (left * {k});
    assert left * {k} <= {k};
    Fewer({k}, {k} - left);
    assert {k} - ({k} - left) == left * {k};
  }

  lemma {:induction false} OneWinner(granted: set<Key>, k: Key, msgs: seq<Recv>)
    ensures var p := ReadResults(granted, 0, {k}, msgs);
            p.stop.Ended? && p.left == {} <==>
            k in granted && msgs != [] && msgs[0].Got? && msgs[0].msg.Init? && msgs[0].msg.key == k
    ensures var p := ReadResults(granted, 0, {k}, msgs); p.stop.Ended? && p.left == {} ==> p.used == 1
  {
    assert {k} - {k} == {};
    if msgs != [] && msgs[0].Got? && msgs[0].msg.Init? {
      var j := msgs[0].msg.key;
      assert j != k ==> {k} - {j} == {k};
      assert ReadResults(granted, 1, {k} - {j}, msgs[1..]) == InitPhase([], {k} - {j}, 0, Ended);
    }
  }

  lemma {:induction false} NoneLeft(locks: map<Key, Lock>, msgs: seq<Recv>)
    ensures var p := ReadResults(locks.Keys, 0, Winners(locks), msgs);
            && (p.stop.Ended? && p.left == {} <==> AwaitsRelease(locks, msgs))
            && (AwaitsRelease(locks, msgs) ==> p.used == |Winners(locks)|)
  {
    var w := Winners(locks);
    if |w| == 0 {
      assert w == {} && ReadResults(locks.Keys, 0, w, msgs) == InitPhase([], {}, 0, Ended);
    } else if |w| == 1 {
      var k :| k in w;
      assert |w - {k}| == 0;
      assert w == {k};
      OneWinner(locks.Keys, k, msgs);
    } else {
      SomeLeft(locks.Keys, 0, w, msgs);
    }
  }

  /** How a stranded request ends, by the end of its init phase. */
  lemma OutcomeOf(locks: map<Key, Lock>, env: Env, msgs: seq<Recv>)
    ensures var o, p := Serve(locks, env, msgs).outcome, ReadResults(locks.Keys, 0, Winners(locks), msgs);
            && (o == Some(Crashed) <==> env.sendOk && p.stop.Panicked?)
            && (o == Some(Rejected) <==>
                env.sendOk && p.stop.Ended? && p.left == {} && p.used < |msgs| && msgs[p.used].Got? && !msgs[p.used].msg.Release?)
  {
  }

  /** Rejection, in terms of the messages. */
  lemma {:induction false} RejectedExactly(locks: map<Key, Lock>, env: Env, msgs: seq<Recv>)
    ensures Serve(locks, env, msgs).outcome == Some(Rejected) <==> env.sendOk && RejectsOn(locks, msgs)
  {
    OutcomeOf(locks, env, msgs);
    NoneLeft(locks, msgs);
  }

  /** A crash, in terms of the messages. */
  lemma {:induction false} CrashedExactly(locks: map<Key, Lock>, env: Env, msgs: seq<Recv>)
    ensures Serve(locks, env, msgs).outcome == Some(Crashed) <==> env.sendOk && CrashesOn(locks, msgs)
  {
    OutcomeOf(locks, env, msgs);
    PanicsExactly(locks, msgs);
  }

  lemma {:induction false} PanicsExactly(locks: map<Key, Lock>, msgs: seq<Recv>)
    ensures ReadResults(locks.Keys, 0, Winners(locks), msgs).stop.Panicked? <==> CrashesOn(locks, msgs)
  {
    var w := Winners(locks);
    if ReadResults(locks.Keys, 0, w, msgs).stop.Panicked? {
      var c := StopsAt(locks.Keys, 0, w, msgs);
    } else if CrashesOn(locks, msgs) {
      var c: nat :| Expects(locks.Keys, 0, w, msgs, c) && Foreign(locks.Keys, msgs, c);
      StopsThere(locks.Keys, 0, w, msgs, c);
    }
  }
}
