/** The lock sessions of the beacon server for the namespace, for image builds and for container
    setup: one stream of lock and unlock messages, at most one lock held, released on every return. */
module BeaconSessions {
  import opened Basics

  /** The namespace session has no key; build and setup sessions name one in every message. */
  datatype Kind = Namespace | Keyed

  /** `Other` is an operation number the server does not know; it is ignored. */
  datatype Op = Lock | Unlock | Other

  datatype Recv = Msg(op: Op, key: string) | Eof | Broken

  /** What the environment decides in one turn: the message, whether the lock call succeeds, and
      whether the answer can be sent. */
  datatype Turn = Turn(recv: Recv, lockOk: bool, sendOk: bool)

  /** Calls made on the locker. */
  datatype Event = Locked(key: string) | Unlocked(key: string)

  datatype Status = Running | Returned(clean: bool)

  datatype Session = Session(hold: Option<string>, calls: seq<Event>, answers: seq<Op>, status: Status)

  const FRESH := Session(None, [], [], Running)

  /** Returning runs the deferred unlock. */
  function Close(s: Session, clean: bool): Session {
    if s.hold.Some? then Session(None, s.calls + [Unlocked(s.hold.value)], s.answers, Returned(clean))
    else s.(status := Returned(clean))
  }

  function Answered(s: Session, sendOk: bool): Session {
    if sendOk then s else Close(s, false)
  }

  function KeyOf(kind: Kind, m: Recv): string
    requires m.Msg?
  {
    if kind.Namespace? then "" else m.key
  }

  /** One turn of the session loop. */
  function Next(kind: Kind, s: Session, turn: Turn): Session {
    if s.status.Returned? then s
    else
      match turn.recv
      case Eof => Close(s, true)
      case Broken => Close(s, false)
      case Msg(op, key) =>
        var k := KeyOf(kind, turn.recv);
        if kind.Keyed? && key == "" then Close(s, false)
        else
          match op
          case Other => s
          case Lock =>
            if s.hold.Some? || (kind.Keyed? && !turn.lockOk) then Close(s, false)
            else Answered(Session(Some(k), s.calls + [Locked(k)], s.answers + [Lock], Running), turn.sendOk)
          case Unlock =>
            if s.hold.None? || s.hold.value != k then Close(s, false)
            else Answered(Session(None, s.calls + [Unlocked(k)], s.answers + [Unlock], Running), turn.sendOk)
  }

  function After(kind: Kind, inbox: seq<Turn>): Session {
    if inbox == [] then FRESH else Next(kind, After(kind, inbox[..|inbox| - 1]), inbox[|inbox| - 1])
  }

  /** The session loop itself, over its own variables. */
  method Serve(kind: Kind, inbox: seq<Turn>) returns (s: Session)
    ensures s == After(kind, inbox)
  {
    var unlock: Option<string> := None;
    var calls: seq<Event>, answers: seq<Op> := [], [];
    var i := 0;
    while i < |inbox|
      invariant 0 <= i <= |inbox|
      invariant After(kind, inbox[..i]) == Session(unlock, calls, answers, Running)
    {
      assert inbox[..i + 1][..i] == inbox[..i];
      var turn := inbox[i];
      var failed, clean := false, false;
      if turn.recv.Eof? {
        failed, clean := true, true;
      } else if turn.recv.Broken? || (kind.Keyed? && turn.recv.key == "") {
        failed := true;
      } else {
        var k := KeyOf(kind, turn.recv);
        match turn.recv.op {
          case Other =>
          case Lock =>
            if unlock.Some? || (kind.Keyed? && !turn.lockOk) {
              failed := true;
            } else {
              unlock, calls, answers := Some(k), calls + [Locked(k)], answers + [Lock];
              failed := !turn.sendOk;
            }
          case Unlock =>
            if unlock.None? || unlock.value != k {
              failed := true;
            } else {
              unlock, calls, answers := None, calls + [Unlocked(k)], answers + [Unlock];
              failed := !turn.sendOk;
            }
        }
      }
      if failed {
        if unlock.Some? {
          calls := calls + [Unlocked(unlock.value)];
        }
        s := Session(None, calls, answers, Returned(clean));
        Stays(kind, inbox, i + 1, s);
        return;
      }
      i := i + 1;
    }
    assert inbox[..i] == inbox;
    s := Session(unlock, calls, answers, Running);
  }

  /** Nothing is read after the return. */
  lemma {:induction false} Stays(kind: Kind, inbox: seq<Turn>, i: nat, s: Session)
    requires i <= |inbox| && After(kind, inbox[..i]) == s && s.status.Returned?
    ensures After(kind, inbox) == s
  {
    if i < |inbox| {
      assert inbox[..|inbox| - 1][..i] == inbox[..i];
      Stays(kind, inbox[..|inbox| - 1], i, s);
    } else {
      assert inbox[..i] == inbox;
    }
  }

  // ----- safety of every trace

  /** What a sequence of locker calls leaves held; `Misused` once a second lock is taken or a lock
      that is not held is given back. */
  datatype Holding = Free | Has(key: string) | Misused

  function Held(calls: seq<Event>): Holding {
    if calls == [] then Free
    else
      match (Held(calls[..|calls| - 1]), calls[|calls| - 1])
      case (Free, Locked(k)) => Has(k)
      case (Has(j), Unlocked(k)) => if j == k then Free else Misused
      case _ => Misused
  }

  /** The last lock or unlock message of a trace. */
  function LastOp(inbox: seq<Turn>): Op {
    if inbox == [] then Unlock
    else
      var m := inbox[|inbox| - 1].recv;
      if m.Msg? && !m.op.Other? then m.op else LastOp(inbox[..|inbox| - 1])
  }

  ghost predicate Alternates(answers: seq<Op>) {
    forall i :: 0 <= i < |answers| ==> answers[i] == if i % 2 == 0 then Lock else Unlock
  }

  lemma HeldOne(calls: seq<Event>, e: Event)
    ensures Held(calls + [e]) ==
            match (Held(calls), e)
            case (Free, Locked(k)) => Has(k)
            case (Has(j), Unlocked(k)) => if j == k then Free else Misused
            case _ => Misused
  {
    assert (calls + [e])[..|calls|] == calls;
  }

  ghost predicate SafeSession(s: Session) {
    && Held(s.calls) == (if s.hold.Some? then Has(s.hold.value) else Free)
    && Alternates(s.answers)
    && (s.status.Running? ==> (s.hold.Some? <==> |s.answers| % 2 == 1))
    && (s.status.Returned? ==> s.hold.None?)
  }

  lemma CloseSafe(s: Session, clean: bool)
    requires Held(s.calls) == (if s.hold.Some? then Has(s.hold.value) else Free) && Alternates(s.answers)
    ensures SafeSession(Close(s, clean))
  {
    if s.hold.Some? {
      HeldOne(s.calls, Unlocked(s.hold.value));
    }
  }

  lemma NextSafe(kind: Kind, s: Session, turn: Turn)
    requires SafeSession(s)
    ensures SafeSession(Next(kind, s, turn))
  {
    if s.status.Running? {
      CloseSafe(s, turn.recv.Eof?);
      if turn.recv.Msg? {
        if turn.recv.op.Lock? && s.hold.None? {
          LockSafe(s, KeyOf(kind, turn.recv));
        } else if turn.recv.op.Unlock? && s.hold == Some(KeyOf(kind, turn.recv)) {
          UnlockSafe(s, KeyOf(kind, turn.recv));
        }
      }
    }
  }

  lemma LockSafe(s: Session, k: string)
    requires SafeSession(s) && s.status.Running? && s.hold.None?
    ensures var s' := Session(Some(k), s.calls + [Locked(k)], s.answers + [Lock], Running);
            SafeSession(s') && SafeSession(Close(s', false))
  {
    HeldOne(s.calls, Locked(k));
    CloseSafe(Session(Some(k), s.calls + [Locked(k)], s.answers + [Lock], Running), false);
  }

  lemma UnlockSafe(s: Session, k: string)
    requires SafeSession(s) && s.status.Running? && s.hold == Some(k)
    ensures var s' := Session(None, s.calls + [Unlocked(k)], s.answers + [Unlock], Running);
            SafeSession(s') && SafeSession(Close(s', false))
  {
    HeldOne(s.calls, Unlocked(k));
    CloseSafe(Session(None, s.calls + [Unlocked(k)], s.answers + [Unlock], Running), false);
  }

  /** For every trace, malformed and aborted ones included: the session never holds two locks nor
      gives back a lock it does not hold, its answers alternate, it holds a lock exactly when the
      last operation it accepted was a lock, and it holds nothing once it has returned. */
  lemma {:induction false} SessionSafety(kind: Kind, inbox: seq<Turn>)
    ensures SafeSession(After(kind, inbox))
    ensures After(kind, inbox).status.Running? ==> (After(kind, inbox).hold.Some? <==> LastOp(inbox).Lock?)
  {
    if inbox != [] {
      var front := inbox[..|inbox| - 1];
      SessionSafety(kind, front);
      NextSafe(kind, After(kind, front), inbox[|inbox| - 1]);
    }
  }

  // ----- exactly which traces are served to the end

  /** The operation of one turn, if it has one. */
  function OpsOf(turn: Turn): seq<Recv> {
    if turn.recv.Msg? && !turn.recv.op.Other? then [turn.recv] else []
  }

  /** The lock and unlock messages of a trace. */
  function Ops(inbox: seq<Turn>): seq<Recv> {
    if inbox == [] then [] else Ops(inbox[..|inbox| - 1]) + OpsOf(inbox[|inbox| - 1])
  }

  /** No abort and no refusal by the environment. */
  predicate Clean(kind: Kind, turn: Turn) {
    && turn.recv.Msg?
    && (kind.Keyed? ==> turn.recv.key != "")
    && (turn.recv.op.Lock? && kind.Keyed? ==> turn.lockOk)
    && (!turn.recv.op.Other? ==> turn.sendOk)
  }

  /** Lock and unlock in turn, each unlock naming the key of the lock before it. */
  predicate Paired(kind: Kind, ops: seq<Recv>) {
    forall i :: 0 <= i < |ops| ==>
      && ops[i].Msg?
      && ops[i].op == (if i % 2 == 0 then Lock else Unlock)
      && (i % 2 == 1 && kind.Keyed? ==> ops[i - 1].Msg? && ops[i].key == ops[i - 1].key)
  }

  lemma PairedOne(kind: Kind, ops: seq<Recv>, m: Recv)
    requires m.Msg?
    ensures Paired(kind, ops + [m]) <==>
            && Paired(kind, ops)
            && m.op == (if |ops| % 2 == 0 then Lock else Unlock)
            && (|ops| % 2 == 1 && kind.Keyed? ==> ops[|ops| - 1].Msg? && m.key == ops[|ops| - 1].key)
  {
    var all := ops + [m];
    assert forall i :: 0 <= i < |ops| ==> all[i] == ops[i];
    assert all[|ops|] == m;
  }

  /** Which turn keeps a running session running, and what it then holds. */
  lemma NextRuns(kind: Kind, s: Session, turn: Turn)
    requires s.status.Running?
    ensures var s' := Next(kind, s, turn);
            && (s'.status.Running? <==>
                  && Clean(kind, turn)
                  && (turn.recv.op.Lock? ==> s.hold.None?)
                  && (turn.recv.op.Unlock? ==> s.hold == Some(KeyOf(kind, turn.recv))))
            && (s'.status.Running? && turn.recv.op.Other? ==> s' == s)
            && (s'.status.Running? && !turn.recv.op.Other? ==>
                  |s'.answers| == |s.answers| + 1 && s'.hold == if turn.recv.op.Lock? then Some(KeyOf(kind, turn.recv)) else None)
  {
  }

  /** A running session that has answered the operations `ops` and holds the key of an open lock. */
  ghost predicate Answers(kind: Kind, s: Session, ops: seq<Recv>) {
    && |s.answers| == |ops|
    && (forall i :: 0 <= i < |ops| ==> ops[i].Msg?)
    && s.hold == if |ops| % 2 == 1 then Some(KeyOf(kind, ops[|ops| - 1])) else None
  }

  lemma ServedOne(kind: Kind, s: Session, ops: seq<Recv>, turn: Turn)
    requires s.status.Running? && Paired(kind, ops) && Answers(kind, s, ops)
    ensures var s', ops' := Next(kind, s, turn), ops + OpsOf(turn);
            && (s'.status.Running? <==> Clean(kind, turn) && Paired(kind, ops'))
            && (s'.status.Running? ==> Answers(kind, s', ops'))
  {
    NextRuns(kind, s, turn);
    if turn.recv.Msg? && !turn.recv.op.Other? {
      PairedOne(kind, ops, turn.recv);
    } else {
      assert ops + OpsOf(turn) == ops;
    }
  }

  /** A session is still running after a trace exactly when every turn is clean and its operations
      are properly paired; then it has answered each of them and holds the key of an open lock. */
  lemma {:induction false} ServedExactly(kind: Kind, inbox: seq<Turn>)
    ensures After(kind, inbox).status.Running? <==>
            (forall i :: 0 <= i < |inbox| ==> Clean(kind, inbox[i])) && Paired(kind, Ops(inbox))
    ensures After(kind, inbox).status.Running? ==> Answers(kind, After(kind, inbox), Ops(inbox))
  {
    if inbox != [] {
      var front, turn := inbox[..|inbox| - 1], inbox[|inbox| - 1];
      ServedExactly(kind, front);
      assert Ops(inbox) == Ops(front) + OpsOf(turn);
      assert (forall i :: 0 <= i < |inbox| ==> Clean(kind, inbox[i])) <==>
             (forall i :: 0 <= i < |front| ==> Clean(kind, front[i])) && Clean(kind, turn);
      if After(kind, front).status.Running? {
        ServedOne(kind, After(kind, front), Ops(front), turn);
      } else if Paired(kind, Ops(inbox)) {
        PairedPrefix(kind, Ops(front), OpsOf(turn));
      }
    }
  }

  lemma PairedPrefix(kind: Kind, a: seq<Recv>, b: seq<Recv>)
    requires Paired(kind, a + b)
    ensures Paired(kind, a)
  {
    assert forall i :: 0 <= i < |a| ==> (a + b)[i] == a[i];
  }

  // ----- how a session returns

  /** The stream ends at turn `i`, and everything before it was served. */
  ghost predicate EndsAt(kind: Kind, inbox: seq<Turn>, i: nat) {
    && i < |inbox| && inbox[i].recv == Eof
    && (forall j :: 0 <= j < i ==> Clean(kind, inbox[j])) && Paired(kind, Ops(inbox[..i]))
  }

  /** A running session returns without an error exactly at the end of the stream. */
  lemma NextReturns(kind: Kind, s: Session, turn: Turn)
    requires s.status == Running
    ensures Next(kind, s, turn).status == Returned(true) <==> turn.recv == Eof
  {
  }

  lemma {:induction false} ReturnedAt(kind: Kind, inbox: seq<Turn>) returns (i: nat)
    requires After(kind, inbox).status == Returned(true)
    ensures EndsAt(kind, inbox, i)
  {
    var n := |inbox| - 1;
    var front := inbox[..n];
    if After(kind, front).status.Running? {
      i := n;
      NextReturns(kind, After(kind, front), inbox[n]);
      ServedExactly(kind, front);
      assert forall j :: 0 <= j < n ==> front[j] == inbox[j];
    } else {
      i := ReturnedAt(kind, front);
      assert front[..i] == inbox[..i];
      assert forall j :: 0 <= j <= i ==> front[j] == inbox[j];
    }
  }

  /** The handler returns without an error if and only if the stream ends and every turn before its end
      was clean and properly paired; with an error on every other trace on which it returns, broken
      streams, refusals and misuse alike. */
  lemma {:induction false} ReturnsExactly(kind: Kind, inbox: seq<Turn>)
    ensures After(kind, inbox).status == Returned(true) <==> exists i: nat :: EndsAt(kind, inbox, i)
    ensures After(kind, inbox).status == Returned(false) <==>
            && !(exists i: nat :: EndsAt(kind, inbox, i))
            && !((forall i :: 0 <= i < |inbox| ==> Clean(kind, inbox[i])) && Paired(kind, Ops(inbox)))
  {
    ServedExactly(kind, inbox);
    if After(kind, inbox).status == Returned(true) {
      var i := ReturnedAt(kind, inbox);
    }
    if i: nat :| EndsAt(kind, inbox, i) {
      var front, s := inbox[..i], After(kind, inbox[..i + 1]);
      ServedExactly(kind, front);
      assert inbox[..i + 1][..i] == front;
      NextReturns(kind, After(kind, front), inbox[i]);
      Stays(kind, inbox, i + 1, s);
    }
  }

  // ----- the locks it takes

  /** The calls of a session are its operations, one by one, each for the key of its message. */
  ghost predicate Named(kind: Kind, calls: seq<Event>, ops: seq<Recv>) {
    && |calls| == |ops|
    && forall i :: 0 <= i < |calls| ==>
         && ops[i].Msg? && (ops[i].op == Lock || ops[i].op == Unlock)
         && (ops[i].op == Lock <==> calls[i].Locked?) && (kind == Keyed ==> calls[i].key == ops[i].key)
  }

  lemma {:induction false} CallsNamed(kind: Kind, inbox: seq<Turn>)
    ensures After(kind, inbox).status.Running? ==> Named(kind, After(kind, inbox).calls, Ops(inbox))
  {
    if inbox != [] {
      var front, turn := inbox[..|inbox| - 1], inbox[|inbox| - 1];
      CallsNamed(kind, front);
      if After(kind, inbox).status.Running? {
        NextRuns(kind, After(kind, front), turn);
        NextCalls(kind, After(kind, front), turn);
      }
    }
  }

  lemma NextCalls(kind: Kind, s: Session, turn: Turn)
    requires s.status.Running? && Next(kind, s, turn).status.Running?
    ensures turn.recv.Msg?
    ensures var s' := Next(kind, s, turn);
            if turn.recv.op == Other then s'.calls == s.calls
            else
              && |s'.calls| == |s.calls| + 1 && s'.calls[..|s.calls|] == s.calls
              && (turn.recv.op == Lock <==> s'.calls[|s.calls|].Locked?)
              && (kind == Keyed ==> s'.calls[|s.calls|].key == turn.recv.key)
  {
  }
}
