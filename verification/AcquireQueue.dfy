/** The acquire controller: a FIFO queue of key sets that decides which requests may start locking.
    A request may start once none of its remaining keys is wanted by an entry queued before it. */
module AcquireQueue {
  import opened Basics

  /** An element of the queue: `started` is the closed/open state of the entry's `proceed` channel. */
  datatype Entry = Entry(ticket: nat, keys: set<Key>, started: bool)

  /** The keys wanted by some entry of `q`. */
  ghost function KeysOf(q: seq<Entry>): set<Key> {
    if q == [] then {} else KeysOf(q[..|q| - 1]) + q[|q| - 1].keys
  }

  /** One pass of `proceed`: an entry with no key in common with its predecessors is started. */
  ghost function Scheduled(q: seq<Entry>): seq<Entry> {
    if q == [] then []
    else
      var front, last := q[..|q| - 1], q[|q| - 1];
      Scheduled(front) + [last.(started := last.started || last.keys !! KeysOf(front))]
  }

  /** Every started entry is disjoint from its predecessors. */
  ghost predicate Sound(q: seq<Entry>) {
    q != [] ==>
      var front, last := q[..|q| - 1], q[|q| - 1];
      Sound(front) && (last.started ==> last.keys !! KeysOf(front))
  }

  /** Entry `i` has no key in common with an entry before it. */
  ghost predicate Clear(q: seq<Entry>, i: nat)
    requires i < |q|
  {
    forall j :: 0 <= j < i ==> q[j].keys !! q[i].keys
  }

  /** An entry is started exactly when it is disjoint from every entry before it. */
  ghost predicate Exact(q: seq<Entry>) {
    forall i :: 0 <= i < |q| ==> ExactAt(q, i)
  }

  ghost predicate ExactAt(q: seq<Entry>, i: nat)
    requires i < |q|
  {
    q[i].started <==> Clear(q, i)
  }

  ghost predicate Ordered(q: seq<Entry>) {
    forall i, j :: 0 <= i < j < |q| ==> q[i].ticket < q[j].ticket
  }

  /** The queue without the entry of ticket `t`. */
  ghost function Dropped(q: seq<Entry>, t: nat): seq<Entry> {
    if q == [] then []
    else
      var front, last := q[..|q| - 1], q[|q| - 1];
      Dropped(front, t) + if last.ticket == t then [] else [last]
  }

  /** The queue after ticket `t` has locked key `k`: the key goes, and with the last key the entry. */
  ghost function Shrunk(q: seq<Entry>, t: nat, k: Key): seq<Entry> {
    if q == [] then []
    else
      var front, last := q[..|q| - 1], q[|q| - 1];
      Shrunk(front, t, k) +
      if last.ticket != t then [last]
      else if |last.keys| > 1 then [last.(keys := last.keys - {k})]
      else []
  }

  ghost function Accepted(q: seq<Entry>, t: nat, keys: set<Key>): seq<Entry> {
    Scheduled(q + [Entry(t, keys, false)])
  }

  ghost function KeyLocked(q: seq<Entry>, t: nat, k: Key): seq<Entry> {
    Scheduled(Shrunk(q, t, k))
  }

  ghost function Removed(q: seq<Entry>, t: nat): seq<Entry> {
    Scheduled(Dropped(q, t))
  }

  /** The `proceed` channel of ticket `t` is closed. */
  predicate Started(q: seq<Entry>, t: nat) {
    exists i :: 0 <= i < |q| && q[i].ticket == t && q[i].started
  }

  /** Same tickets wanting the same keys; only `started` may differ. */
  ghost predicate SameEntries(p: seq<Entry>, q: seq<Entry>) {
    |p| == |q| && forall i :: 0 <= i < |p| ==> p[i].ticket == q[i].ticket && p[i].keys == q[i].keys
  }

  // ----- what the queue keys are

  lemma {:induction false} KeysOfMember(q: seq<Entry>, k: Key)
    ensures k in KeysOf(q) <==> exists i :: 0 <= i < |q| && k in q[i].keys
  {
    if q != [] {
      KeysOfMember(q[..|q| - 1], k);
    }
  }

  lemma DisjointFromKeysOf(q: seq<Entry>, keys: set<Key>)
    ensures keys !! KeysOf(q) <==> forall j :: 0 <= j < |q| ==> q[j].keys !! keys
  {
    forall k ensures k in KeysOf(q) <==> exists i :: 0 <= i < |q| && k in q[i].keys {
      KeysOfMember(q, k);
    }
  }

  lemma {:induction false} SameEntriesSameKeys(p: seq<Entry>, q: seq<Entry>)
    requires SameEntries(p, q)
    ensures KeysOf(p) == KeysOf(q)
  {
    if p != [] {
      SameEntriesSameKeys(p[..|p| - 1], q[..|q| - 1]);
    }
  }

  // ----- scheduling

  lemma {:induction false} ScheduledEntries(q: seq<Entry>)
    ensures SameEntries(Scheduled(q), q)
    ensures forall i :: 0 <= i < |q| ==> q[i].started ==> Scheduled(q)[i].started
  {
    if q != [] {
      ScheduledEntries(q[..|q| - 1]);
    }
  }

  /** Exactness of a queue, split at its last entry. */
  lemma ExactSplit(q: seq<Entry>)
    requires q != []
    ensures Exact(q) <==>
            Exact(q[..|q| - 1]) && (q[|q| - 1].started <==> q[|q| - 1].keys !! KeysOf(q[..|q| - 1]))
  {
    var front, n := q[..|q| - 1], |q| - 1;
    LastClear(q);
    assert ExactAt(q, n) <==> (q[n].started <==> q[n].keys !! KeysOf(front));
    forall i | 0 <= i < n ensures ExactAt(front, i) <==> ExactAt(q, i) {
      assert forall j :: 0 <= j <= i ==> front[j] == q[j];
    }
  }

  lemma LastClear(q: seq<Entry>)
    requires q != []
    ensures Clear(q, |q| - 1) <==> q[|q| - 1].keys !! KeysOf(q[..|q| - 1])
  {
    var front := q[..|q| - 1];
    DisjointFromKeysOf(front, q[|q| - 1].keys);
    assert forall j :: 0 <= j < |front| ==> front[j] == q[j];
  }

  lemma {:induction false} ExactIsSound(q: seq<Entry>)
    requires Exact(q)
    ensures Sound(q)
  {
    if q != [] {
      ExactSplit(q);
      ExactIsSound(q[..|q| - 1]);
    }
  }

  /** The pass makes a sound queue exact. */
  lemma {:induction false} ScheduledExact(q: seq<Entry>)
    requires Sound(q)
    ensures Exact(Scheduled(q))
  {
    if q != [] {
      var front := q[..|q| - 1];
      ScheduledExact(front);
      ScheduledEntries(front);
      SameEntriesSameKeys(Scheduled(front), front);
      var s := Scheduled(q);
      assert s[..|s| - 1] == Scheduled(front);
      ExactSplit(s);
    }
  }

  /** Exactness determines the flags. */
  lemma ExactUnique(p: seq<Entry>, q: seq<Entry>)
    requires SameEntries(p, q) && Exact(p) && Exact(q)
    ensures p == q
  {
    forall i | 0 <= i < |p| ensures p[i] == q[i] {
      assert ExactAt(p, i) && ExactAt(q, i);
      assert Clear(p, i) <==> Clear(q, i);
    }
  }

  lemma AcceptedSound(q: seq<Entry>, t: nat, keys: set<Key>)
    requires Sound(q)
    ensures Sound(q + [Entry(t, keys, false)])
  {
    var p := q + [Entry(t, keys, false)];
    assert p[..|p| - 1] == q;
  }

  lemma {:induction false} ShrunkSound(q: seq<Entry>, t: nat, k: Key)
    requires Sound(q)
    ensures Sound(Shrunk(q, t, k)) && KeysOf(Shrunk(q, t, k)) <= KeysOf(q)
  {
    if q != [] {
      var front := q[..|q| - 1];
      ShrunkSound(front, t, k);
      var s := Shrunk(q, t, k);
      if |s| > |Shrunk(front, t, k)| {
        assert s[..|s| - 1] == Shrunk(front, t, k);
      } else {
        assert s == Shrunk(front, t, k);
      }
    }
  }

  lemma {:induction false} DroppedSound(q: seq<Entry>, t: nat)
    requires Sound(q)
    ensures Sound(Dropped(q, t)) && KeysOf(Dropped(q, t)) <= KeysOf(q)
  {
    if q != [] {
      var front := q[..|q| - 1];
      DroppedSound(front, t);
      var s := Dropped(q, t);
      if |s| > |Dropped(front, t)| {
        assert s[..|s| - 1] == Dropped(front, t);
      } else {
        assert s == Dropped(front, t);
      }
    }
  }

  // ----- tickets

  /** Tickets in acceptance order, all below `bound`. */
  ghost predicate OrderedBelow(q: seq<Entry>, bound: nat) {
    Ordered(q) && forall i :: 0 <= i < |q| ==> q[i].ticket < bound
  }

  lemma {:induction false} ShrunkOrdered(q: seq<Entry>, t: nat, k: Key, bound: nat)
    requires OrderedBelow(q, bound)
    ensures OrderedBelow(Shrunk(q, t, k), bound) && OrderedBelow(Dropped(q, t), bound)
  {
    if q != [] {
      ShrunkOrdered(q[..|q| - 1], t, k, q[|q| - 1].ticket);
    }
  }

  /** A new request starts at once exactly when nobody in the queue wants one of its keys. */
  lemma AcceptedStarts(q: seq<Entry>, t: nat, keys: set<Key>)
    requires OrderedBelow(q, t)
    ensures Started(Accepted(q, t, keys), t) <==> keys !! KeysOf(q)
  {
    var p := q + [Entry(t, keys, false)];
    assert p[..|q|] == q;
    ScheduledEntries(q);
    var s := Accepted(q, t, keys);
    assert s == Scheduled(q) + [Entry(t, keys, keys !! KeysOf(q))];
    assert s[|q|].ticket == t;
  }
}
