/** The controller as the mutable object it is: its queue is updated in place under a mutex, so that
    every method below is one atomic step of the locking protocol. */
module AcquireControllers {
  import opened Basics
  import opened AcquireQueue

  class AcquireController {
    var queue: seq<Entry>
    var next: nat

    ghost predicate Valid()
      reads this
    {
      Disciplined(queue, next)
    }

    constructor ()
      ensures Valid() && queue == [] && next == 0
    {
      queue, next := [], 0;
    }

    /** The scheduling pass: one walk over the queue with a growing wait set. */
    method Proceed()
      modifies this`queue
      ensures queue == Scheduled(old(queue))
    {
      ghost var q := queue;
      var waitSet: set<Key> := {};
      var i := 0;
      while i < |queue|
        invariant 0 <= i <= |queue| == |q|
        invariant queue[..i] == Scheduled(q[..i])
        invariant forall j :: i <= j < |q| ==> queue[j] == q[j]
        invariant waitSet == KeysOf(q[..i])
      {
        ghost var before := waitSet;
        var e := queue[i];
        ScheduledStep(q, i);
        var pending;
        waitSet, pending := Claim(e.keys, waitSet);
        if !e.started && !pending {
          queue := queue[i := e.(started := true)];
        }
        assert queue[..i + 1] == Scheduled(q[..i]) + [e.(started := e.started || e.keys !! before)];
        i := i + 1;
      }
      assert q[..i] == q && queue[..i] == queue;
    }

    /** Adds the keys of one entry to the wait set and tells whether one of them was already there. */
    method Claim(keys: set<Key>, waitSet: set<Key>) returns (claimed: set<Key>, pending: bool)
      ensures claimed == waitSet + keys
      ensures pending <==> !(keys !! waitSet)
    {
      claimed, pending := waitSet, false;
      var todo := keys;
      while todo != {}
        invariant todo <= keys
        invariant claimed == waitSet + (keys - todo)
        invariant pending <==> !((keys - todo) !! waitSet)
        decreases todo
      {
        var key :| key in todo;
        if key in claimed {
          pending := true;
        } else {
          claimed := claimed + {key};
        }
        todo := todo - {key};
      }
    }

    /** The position of a ticket, or the length of the queue when its entry is gone. */
    method Find(ticket: nat) returns (i: nat)
      ensures i <= |queue|
      ensures i < |queue| ==> queue[i].ticket == ticket
      ensures i == |queue| ==> forall e :: e in queue ==> e.ticket != ticket
    {
      i := 0;
      while i < |queue| && queue[i].ticket != ticket
        invariant 0 <= i <= |queue|
        invariant forall j :: 0 <= j < i ==> queue[j].ticket != ticket
      {
        i := i + 1;
      }
    }

    /** Enqueues a request at the back; it starts at once if it conflicts with nobody. */
    method Accept(keys: set<Key>) returns (ticket: nat)
      requires Valid()
      modifies this
      ensures Valid() && ticket == old(next) && next == old(next) + 1
      ensures queue == Accepted(old(queue), ticket, keys)
      ensures forall t :: Started(old(queue), t) ==> Started(queue, t)
    {
      ticket := next;
      AcceptedKeeps(queue, next, keys);
      queue, next := queue + [Entry(ticket, keys, false)], next + 1;
      Proceed();
    }

    /** Reports that `ticket` holds `key`: others may now queue for the semaphore of that key. */
    method RemoveLockedKey(ticket: nat, key: Key)
      requires Valid()
      modifies this`queue
      ensures Valid() && queue == KeyLocked(old(queue), ticket, key)
      ensures forall t :: t != ticket && Started(old(queue), t) ==> Started(queue, t)
    {
      KeyLockedKeeps(queue, next, ticket, key);
      ghost var target := Shrunk(queue, ticket, key);
      var i := Find(ticket);
      if i < |queue| {
        ShrunkAt(queue, i, key);
        if |queue[i].keys| > 1 {
          queue := queue[i := queue[i].(keys := queue[i].keys - {key})];
        } else {
          queue := queue[..i] + queue[i + 1..];
        }
      } else {
        ShrunkAbsent(queue, ticket, key);
      }
      assert queue == target;
      Proceed();
    }

    /** Withdraws the request of `ticket`; a no-op on an entry that has already left the queue. */
    method Remove(ticket: nat)
      requires Valid()
      modifies this`queue
      ensures Valid() && queue == Removed(old(queue), ticket)
      ensures forall t :: t != ticket && Started(old(queue), t) ==> Started(queue, t)
    {
      RemovedKeeps(queue, next, ticket);
      ghost var target := Dropped(queue, ticket);
      var i := Find(ticket);
      if i < |queue| {
        DroppedAt(queue, i);
        queue := queue[..i] + queue[i + 1..];
      } else {
        DroppedAbsent(queue, ticket);
      }
      assert queue == target;
      Proceed();
    }
  }

  /** What every operation keeps: acceptance order, and flags that are exactly the disjointness of
      an entry from all its predecessors. */
  ghost predicate Disciplined(q: seq<Entry>, next: nat) {
    OrderedBelow(q, next) && Exact(q)
  }

  lemma ScheduledStep(q: seq<Entry>, i: nat)
    requires i < |q|
    ensures Scheduled(q[..i + 1]) == Scheduled(q[..i]) + [q[i].(started := q[i].started || q[i].keys !! KeysOf(q[..i]))]
    ensures KeysOf(q[..i + 1]) == KeysOf(q[..i]) + q[i].keys
  {
    assert q[..i + 1][..i] == q[..i];
  }

  lemma AcceptedKeeps(q: seq<Entry>, next: nat, keys: set<Key>)
    requires Disciplined(q, next)
    ensures Disciplined(Accepted(q, next, keys), next + 1)
    ensures forall t :: Started(q, t) ==> Started(Accepted(q, next, keys), t)
  {
    var p := q + [Entry(next, keys, false)];
    ExactIsSound(q);
    AcceptedSound(q, next, keys);
    ScheduledExact(p);
    KeepsStarted(p);
    KeepsTickets(p, next + 1);
    forall t | Started(q, t) ensures Started(p, t) {
      var i :| 0 <= i < |q| && q[i].ticket == t && q[i].started;
      assert p[i] == q[i];
    }
  }

  lemma KeyLockedKeeps(q: seq<Entry>, next: nat, t: nat, k: Key)
    requires Disciplined(q, next)
    ensures Disciplined(KeyLocked(q, t, k), next)
    ensures forall u :: u != t && Started(q, u) ==> Started(KeyLocked(q, t, k), u)
  {
    var p := Shrunk(q, t, k);
    ExactIsSound(q);
    ShrunkSound(q, t, k);
    ShrunkOrdered(q, t, k, next);
    ScheduledExact(p);
    ShrunkStarted(q, t, k);
    KeepsStarted(p);
    KeepsTickets(p, next);
  }

  lemma RemovedKeeps(q: seq<Entry>, next: nat, t: nat)
    requires Disciplined(q, next)
    ensures Disciplined(Removed(q, t), next)
    ensures forall u :: u != t && Started(q, u) ==> Started(Removed(q, t), u)
  {
    var p := Dropped(q, t);
    ExactIsSound(q);
    DroppedSound(q, t);
    ShrunkOrdered(q, t, "", next);
    ScheduledExact(p);
    DroppedStarted(q, t);
    KeepsStarted(p);
    KeepsTickets(p, next);
  }

  lemma KeepsStarted(q: seq<Entry>)
    ensures forall t :: Started(q, t) ==> Started(Scheduled(q), t)
  {
    ScheduledEntries(q);
    forall t | Started(q, t) ensures Started(Scheduled(q), t) {
      var i :| 0 <= i < |q| && q[i].ticket == t && q[i].started;
      assert Scheduled(q)[i].ticket == t && Scheduled(q)[i].started;
    }
  }

  lemma KeepsTickets(q: seq<Entry>, next: nat)
    requires OrderedBelow(q, next)
    ensures OrderedBelow(Scheduled(q), next)
  {
    ScheduledEntries(q);
  }

  lemma {:induction false} ShrunkAbsent(q: seq<Entry>, t: nat, k: Key)
    requires forall e :: e in q ==> e.ticket != t
    ensures Shrunk(q, t, k) == q
  {
    if q != [] {
      ShrunkAbsent(q[..|q| - 1], t, k);
    }
  }

  lemma {:induction false} ShrunkAt(q: seq<Entry>, i: nat, k: Key)
    requires Ordered(q) && i < |q|
    ensures Shrunk(q, q[i].ticket, k) ==
            if |q[i].keys| > 1 then q[i := q[i].(keys := q[i].keys - {k})] else q[..i] + q[i + 1..]
  {
    var n := |q| - 1;
    var front, last, t := q[..n], q[n], q[i].ticket;
    if i == n {
      ShrunkAbsent(front, t, k);
    } else {
      ShrunkAt(front, i, k);
      assert Shrunk(q, t, k) == Shrunk(front, t, k) + [last];
      if |q[i].keys| > 1 {
        assert q[i := q[i].(keys := q[i].keys - {k})] == front[i := q[i].(keys := q[i].keys - {k})] + [last];
      } else {
        assert q[..i] + q[i + 1..] == front[..i] + front[i + 1..] + [last];
      }
    }
  }

  lemma {:induction false} ShrunkStarted(q: seq<Entry>, t: nat, k: Key)
    ensures forall u :: u != t && Started(q, u) ==> Started(Shrunk(q, t, k), u)
  {
    if q != [] {
      var front, s := q[..|q| - 1], Shrunk(q, t, k);
      ShrunkStarted(front, t, k);
      forall u | u != t && Started(q, u) ensures Started(s, u) {
        if Started(front, u) {
          var p := Shrunk(front, t, k);
          var j :| 0 <= j < |p| && p[j].ticket == u && p[j].started;
          assert s[j] == p[j];
        } else {
          assert s[|s| - 1] == q[|q| - 1];
        }
      }
    }
  }

  lemma {:induction false} DroppedAbsent(q: seq<Entry>, t: nat)
    requires forall e :: e in q ==> e.ticket != t
    ensures Dropped(q, t) == q
  {
    if q != [] {
      DroppedAbsent(q[..|q| - 1], t);
    }
  }

  lemma {:induction false} DroppedAt(q: seq<Entry>, i: nat)
    requires Ordered(q) && i < |q|
    ensures Dropped(q, q[i].ticket) == q[..i] + q[i + 1..]
  {
    var front := q[..|q| - 1];
    if i == |q| - 1 {
      DroppedAbsent(front, q[i].ticket);
    } else {
      DroppedAt(front, i);
    }
  }

  lemma {:induction false} DroppedStarted(q: seq<Entry>, t: nat)
    ensures forall u :: u != t && Started(q, u) ==> Started(Dropped(q, t), u)
  {
    if q != [] {
      var front, s := q[..|q| - 1], Dropped(q, t);
      DroppedStarted(front, t);
      forall u | u != t && Started(q, u) ensures Started(s, u) {
        if Started(front, u) {
          var p := Dropped(front, t);
          var j :| 0 <= j < |p| && p[j].ticket == u && p[j].started;
          assert s[j] == p[j];
        } else {
          assert s[|s| - 1] == q[|q| - 1];
        }
      }
    }
  }
}
