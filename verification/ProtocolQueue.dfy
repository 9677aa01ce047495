/** The controller's queue is a function of the requests: in every reachable state it lists, in
    acceptance order, exactly the requests that still want keys, with exact start flags. */
module ProtocolQueue {
  import opened Basics
  import opened AcquireQueue
  import opened LockValues
  import opened Protocol

  /** Keys a request has announced to the controller and not yet reported as locked. */
  function Pending(r: Request): set<Key> {
    match r.phase
    case Waiting => r.modes.Keys
    case Cancelled => r.modes.Keys
    case Locking => set k | k in r.states && !r.states[k].Held?
    case _ => {}
  }

  /** An entry without keys never leaves the queue. */
  predicate Queued(r: Request) {
    r.modes.Keys == {} || r.phase.Waiting? || r.phase.Cancelled? || Pending(r) != {}
  }

  ghost function Raw(reqs: seq<Request>): seq<Entry> {
    if reqs == [] then []
    else
      var n := |reqs| - 1;
      Raw(reqs[..n]) + Tail(n, reqs[n])
  }

  ghost function Tail(n: nat, r: Request): seq<Entry> {
    if Queued(r) then [Entry(n, Pending(r), false)] else []
  }

  ghost predicate QueueOk(s: State) {
    SameEntries(s.queue, Raw(s.reqs)) && Exact(s.queue)
  }

  /** No request before `t` wants a key that `t` wants. */
  ghost predicate Unblocked(reqs: seq<Request>, t: nat)
    requires t < |reqs|
  {
    forall o :: 0 <= o < t ==> Pending(reqs[o]) !! Pending(reqs[t])
  }

  // ----- the raw queue

  lemma {:induction false} RawEntry(reqs: seq<Request>, i: nat)
    requires i < |Raw(reqs)|
    ensures Raw(reqs)[i].ticket < |reqs| && Queued(reqs[Raw(reqs)[i].ticket])
    ensures Raw(reqs)[i].keys == Pending(reqs[Raw(reqs)[i].ticket])
  {
    if i < |Raw(reqs[..|reqs| - 1])| {
      RawEntry(reqs[..|reqs| - 1], i);
    }
  }

  lemma {:induction false} RawOrdered(reqs: seq<Request>)
    ensures Ordered(Raw(reqs))
  {
    if reqs != [] {
      var front := reqs[..|reqs| - 1];
      RawOrdered(front);
      forall i | 0 <= i < |Raw(front)| ensures Raw(front)[i].ticket < |front| {
        RawEntry(front, i);
      }
    }
  }

  lemma {:induction false} RawIndex(reqs: seq<Request>, t: nat) returns (i: nat)
    requires t < |reqs| && Queued(reqs[t])
    ensures i < |Raw(reqs)| && Raw(reqs)[i].ticket == t
  {
    var n := |reqs| - 1;
    if t == n {
      i := |Raw(reqs)| - 1;
    } else {
      i := RawIndex(reqs[..n], t);
    }
  }

  lemma {:induction false} RawSame(reqs: seq<Request>, t: nat, r: Request)
    requires t < |reqs| && Queued(r) == Queued(reqs[t]) && Pending(r) == Pending(reqs[t])
    ensures Raw(reqs[t := r]) == Raw(reqs)
  {
    var n := |reqs| - 1;
    if t < n {
      RawSame(reqs[..n], t, r);
      assert reqs[t := r][..n] == reqs[..n][t := r];
    } else {
      assert reqs[t := r][..n] == reqs[..n];
    }
  }

  lemma {:induction false} RawAbsent(reqs: seq<Request>, t: nat, k: Key)
    requires |reqs| <= t
    ensures Shrunk(Raw(reqs), t, k) == Raw(reqs) && Dropped(Raw(reqs), t) == Raw(reqs)
  {
    if reqs != [] {
      var n := |reqs| - 1;
      RawAbsent(reqs[..n], t, k);
      if Queued(reqs[n]) {
        assert Raw(reqs)[..|Raw(reqs)| - 1] == Raw(reqs[..n]);
      } else {
        assert Raw(reqs) == Raw(reqs[..n]);
      }
    }
  }

  lemma ShrunkLast(q: seq<Entry>, e: Entry, t: nat, k: Key)
    ensures Shrunk(q + [e], t, k) == Shrunk(q, t, k) +
            if e.ticket != t then [e] else if |e.keys| > 1 then [e.(keys := e.keys - {k})] else []
    ensures Dropped(q + [e], t) == Dropped(q, t) + if e.ticket == t then [] else [e]
  {
    assert (q + [e])[..|q|] == q;
  }

  /** Shrinking the entry contributed by one request. */
  lemma TailShrunk(q: seq<Entry>, n: nat, r: Request, t: nat, k: Key)
    ensures Shrunk(q + Tail(n, r), t, k) == Shrunk(q, t, k) + Shrunk(Tail(n, r), t, k)
  {
    if Queued(r) {
      ShrunkLast(q, Tail(n, r)[0], t, k);
      ShrunkLast([], Tail(n, r)[0], t, k);
      assert [] + Tail(n, r) == Tail(n, r);
    } else {
      assert q + Tail(n, r) == q;
    }
  }

  lemma {:induction false} RawShrunk(reqs: seq<Request>, t: nat, r: Request, k: Key)
    requires t < |reqs| && Queued(reqs[t]) && Pending(r) == Pending(reqs[t]) - {k}
    requires Queued(r) <==> |Pending(reqs[t])| > 1
    ensures Shrunk(Raw(reqs), t, k) == Raw(reqs[t := r])
  {
    var n := |reqs| - 1;
    var front := reqs[..n];
    TailShrunk(Raw(front), n, reqs[n], t, k);
    if t < n {
      RawShrunk(front, t, r, k);
      assert reqs[t := r][..n] == front[t := r];
      assert Shrunk(Tail(n, reqs[n]), t, k) == Tail(n, reqs[n]);
    } else {
      RawAbsent(front, t, k);
      assert reqs[t := r][..n] == front;
      assert Shrunk(Tail(n, reqs[n]), t, k) == Tail(n, r);
    }
  }

  lemma {:induction false} RawDropped(reqs: seq<Request>, t: nat, r: Request)
    requires t < |reqs| && !Queued(r)
    ensures Dropped(Raw(reqs), t) == Raw(reqs[t := r])
  {
    var n := |reqs| - 1;
    var front := reqs[..n];
    if Queued(reqs[n]) {
      ShrunkLast(Raw(front), Entry(n, Pending(reqs[n]), false), t, "");
    } else {
      assert Raw(reqs) == Raw(front);
    }
    if t < n {
      RawDropped(front, t, r);
      assert reqs[t := r][..n] == front[t := r];
    } else {
      RawAbsent(front, t, "");
      assert reqs[t := r][..n] == front;
    }
  }

  lemma {:induction false} SameShrunk(p: seq<Entry>, q: seq<Entry>, t: nat, k: Key)
    requires SameEntries(p, q)
    ensures SameEntries(Shrunk(p, t, k), Shrunk(q, t, k)) && SameEntries(Dropped(p, t), Dropped(q, t))
  {
    if p != [] {
      SameShrunk(p[..|p| - 1], q[..|q| - 1], t, k);
    }
  }

  // ----- the three controller operations keep the correspondence

  lemma AcceptKeepsQueue(s: State, modes: map<Key, Mode>)
    requires QueueOk(s)
    ensures QueueOk(Apply(s, Accept(modes)))
  {
    var n, r := |s.reqs|, NewRequest(modes);
    var q := s.queue + [Entry(n, modes.Keys, false)];
    ExactIsSound(s.queue);
    AcceptedSound(s.queue, n, modes.Keys);
    ScheduledExact(q);
    ScheduledEntries(q);
    assert (s.reqs + [r])[..n] == s.reqs;
    assert SameEntries(q, Raw(s.reqs + [r]));
  }

  lemma LastPending(keys: set<Key>, k: Key)
    requires k in keys
    ensures keys - {k} != {} <==> |keys| > 1
  {
    assert |keys - {k}| == |keys| - 1;
  }

  lemma NotifyKeepsQueue(s: State, t: nat, k: Key)
    requires QueueOk(s) && Enabled(s, Notify(t, k)) && s.reqs[t].states.Keys == s.reqs[t].modes.Keys
    ensures QueueOk(Apply(s, Notify(t, k)))
  {
    var r, r' := s.reqs[t], Apply(s, Notify(t, k)).reqs[t];
    assert k in Pending(r);
    assert Pending(r') == Pending(r) - {k};
    LastPending(Pending(r), k);
    RawShrunk(s.reqs, t, r', k);
    var q := Shrunk(s.queue, t, k);
    SameShrunk(s.queue, Raw(s.reqs), t, k);
    ExactIsSound(s.queue);
    ShrunkSound(s.queue, t, k);
    ScheduledExact(q);
    ScheduledEntries(q);
  }

  lemma UndoKeepsQueue(s: State, t: nat, k: Key)
    requires QueueOk(s) && Enabled(s, Join(t)) && s.reqs[t].states.Keys == s.reqs[t].modes.Keys
    requires k in s.reqs[t].states && s.reqs[t].states[k].Refused?
    ensures QueueOk(Apply(s, Join(t)))
  {
    var r' := Apply(s, Join(t)).reqs[t];
    RawDropped(s.reqs, t, r');
    var q := Dropped(s.queue, t);
    SameShrunk(s.queue, Raw(s.reqs), t, k);
    ExactIsSound(s.queue);
    DroppedSound(s.queue, t);
    ScheduledExact(q);
    ScheduledEntries(q);
  }

  // ----- what a started entry means

  lemma StartedMeans(s: State, t: nat)
    requires QueueOk(s) && Started(s.queue, t)
    ensures t < |s.reqs| && Unblocked(s.reqs, t)
  {
    var i :| 0 <= i < |s.queue| && s.queue[i].ticket == t && s.queue[i].started;
    RawEntry(s.reqs, i);
    assert ExactAt(s.queue, i) && Clear(s.queue, i);
    forall o | 0 <= o < t ensures Pending(s.reqs[o]) !! Pending(s.reqs[t]) {
      if Queued(s.reqs[o]) {
        var j := RawIndex(s.reqs, o);
        RawEntry(s.reqs, j);
        RawOrdered(s.reqs);
      }
    }
  }

  lemma UnblockedStarts(s: State, t: nat)
    requires QueueOk(s) && t < |s.reqs| && Queued(s.reqs[t]) && Unblocked(s.reqs, t)
    ensures Started(s.queue, t)
  {
    var i := RawIndex(s.reqs, t);
    RawEntry(s.reqs, i);
    RawOrdered(s.reqs);
    forall j | 0 <= j < i ensures s.queue[j].keys !! s.queue[i].keys {
      RawEntry(s.reqs, j);
    }
    assert ExactAt(s.queue, i) && Clear(s.queue, i);
  }
}
