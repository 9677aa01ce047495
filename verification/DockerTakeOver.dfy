/** What the release of a namespace does under the take-over policy, exactly: also resources that existed
    before are removed, but a network that somebody else's container is attached to is not. */
module DockerTakeOver {
  import opened Basics
  import opened DockerUndo

  ghost predicate UniqueIds(w: World) {
    forall m, n :: m in w.containers && n in w.containers && m != n ==> w.containers[m].id != w.containers[n].id
  }

  /** The identifier is that of a container the namespace has obtained. */
  predicate Obtained(s: Space, cid: nat) {
    exists n :: n in s.containers && s.containers[n] == cid
  }

  /** The log after its first entry removes exactly the containers obtained, each once. */
  ghost predicate RemovesEach(s: Space) {
    && s.terminate != [] && s.terminate[0] == RemoveNetwork(s.net)
    && (forall i :: 1 <= i < |s.terminate| ==> s.terminate[i].RemoveContainer? && Obtained(s, s.terminate[i].cid))
    && (forall n :: n in s.containers ==> RemoveContainer(s.containers[n]) in s.terminate[1..])
    && (forall i, j :: 1 <= i < j < |s.terminate| ==> s.terminate[i] != s.terminate[j])
  }

  /** Attachments of other containers are those that were there before. */
  ghost predicate NoneAdded(s: Space, w0: World, w: World) {
    w0.attached <= w.attached && forall a :: a in w.attached && !Obtained(s, a.1) ==> a in w0.attached
  }

  ghost predicate TakenOver(s: Space, w0: World, w: World) {
    s.policy == TakeOver && Registered(s, w) && UniqueIds(w) && RemovesEach(s) && NoneAdded(s, w0, w)
  }

  // ----- what every call keeps

  /** A new container of the namespace, with an identifier that none of its containers has. */
  lemma OneMoreContainer(s: Space, s': Space, name: string, cid: nat)
    requires RemovesEach(s) && name !in s.containers && !Obtained(s, cid)
    requires s' == Space(s.policy, s.net, s.terminate + [RemoveContainer(cid)], s.containers[name := cid])
    ensures RemovesEach(s') && forall c :: Obtained(s', c) <==> Obtained(s, c) || c == cid
  {
    forall c ensures Obtained(s', c) <==> Obtained(s, c) || c == cid {
      if n :| n in s.containers && s.containers[n] == c {
        assert n in s'.containers && s'.containers[n] == c;
      }
      assert name in s'.containers && s'.containers[name] == cid;
    }
    assert s'.terminate[1..] == s.terminate[1..] + [RemoveContainer(cid)];
    forall i, j | 1 <= i < j < |s'.terminate| ensures s'.terminate[i] != s'.terminate[j] {
      assert i < |s.terminate| ==> Obtained(s, s.terminate[i].cid);
    }
  }

  /** An identifier that the namespace does not know, and what the call adds to the world. */
  lemma ObtainNew(s: Space, w: World, want: Want, env: Env)
    requires s.policy == TakeOver && Registered(s, w) && UniqueIds(w) && FreshId(w, env.id)
    ensures var (s', w', id) := Obtain(s, w, want, env);
            && UniqueIds(w') && Registered(s', w') && w.attached <= w'.attached
            && (if want.name in s.containers || id.None? then s' == s && w' == w
                else
                  && s' == Space(s.policy, s.net, s.terminate + [RemoveContainer(id.value)], s.containers[want.name := id.value])
                  && !Obtained(s, id.value)
                  && forall a :: a in w'.attached ==> a in w.attached || a.1 == id.value)
  {
    assert forall n :: n in w.containers ==> HasContainer(w, w.containers[n].id);
  }

  lemma ObtainTakesOver(s: Space, w0: World, w: World, want: Want, env: Env)
    requires TakenOver(s, w0, w) && FreshId(w, env.id)
    ensures TakenOver(Obtain(s, w, want, env).0, w0, Obtain(s, w, want, env).1)
  {
    var (s', w', id) := Obtain(s, w, want, env);
    ObtainNew(s, w, want, env);
    if !(want.name in s.containers || id.None?) {
      OneMoreContainer(s, s', want.name, id.value);
    }
  }

  lemma {:induction false} CallsTakeOver(s: Space, w0: World, w: World, calls: seq<(Want, Env)>)
    requires TakenOver(s, w0, w) && Sane(s, w, calls)
    ensures TakenOver(ObtainAll(s, w, calls).0, w0, ObtainAll(s, w, calls).1)
  {
    if calls != [] {
      var front, call := calls[..|calls| - 1], calls[|calls| - 1];
      CallsTakeOver(s, w0, w, front);
      var (s', w') := ObtainAll(s, w, front);
      ObtainTakesOver(s', w0, w', call.0, call.1);
    }
  }

  lemma ReachedTakeOver(w0: World, name: string, env: Env, calls: seq<(Want, Env)>, s: Space, w: World)
    requires Reached(TakeOver, w0, name, env, calls, s, w) && UniqueIds(w0)
    ensures TakenOver(s, w0, w) && HasNetwork(w, s.net)
  {
    var (w1, o) := Open(TakeOver, w0, name, env);
    assert TakenOver(o.value, w0, w1);
    CallsTakeOver(o.value, w0, w1, calls);
    SamePolicy(o.value, w1, calls);
    CallsNetworks(o.value, w1, calls);
    assert name in w.networks && w.networks[name] == s.net;
  }

  // ----- a release in which all calls get through

  lemma RemoveOne(w: World, cid: nat)
    requires HasContainer(w, cid)
    ensures var r := Undone(w, RemoveContainer(cid));
            && r.Some? && r.value.networks == w.networks
            && (forall c :: c != cid && HasContainer(w, c) ==> HasContainer(r.value, c))
            && (forall a :: a in r.value.attached <==> a in w.attached && a.1 != cid)
  {
    var w' := Undone(w, RemoveContainer(cid)).value;
    forall c | c != cid && HasContainer(w, c) ensures HasContainer(w', c) {
      var n :| n in w.containers && w.containers[n].id == c;
      assert n in w'.containers && w'.containers[n].id == c;
    }
  }

  /** Containers that exist and are named once each are all removed, and nothing else changes. */
  lemma {:induction false} RemovesContainers(w: World, log: seq<Undo>)
    requires forall i :: 0 <= i < |log| ==> log[i].RemoveContainer? && HasContainer(w, log[i].cid)
    requires forall i, j :: 0 <= i < j < |log| ==> log[i] != log[j]
    ensures Unwound(w, log).Some? && Unwound(w, log).value.networks == w.networks
    ensures forall a :: a in Unwound(w, log).value.attached <==> a in w.attached && RemoveContainer(a.1) !in log
    decreases |log|
  {
    if log != [] {
      var n := |log| - 1;
      RemoveOne(w, log[n].cid);
      RemovesContainers(Undone(w, log[n]).value, log[..n]);
      assert log == log[..n] + [log[n]];
    }
  }

  lemma LogTail(s: Space, w: World)
    requires RemovesEach(s) && Registered(s, w)
    ensures Unwound(w, s.terminate[1..]).Some? && Unwound(w, s.terminate[1..]).value.networks == w.networks
    ensures forall a :: a in Unwound(w, s.terminate[1..]).value.attached <==> a in w.attached && !Obtained(s, a.1)
  {
    var log := s.terminate[1..];
    assert forall i :: 0 <= i < |log| ==> log[i] == s.terminate[i + 1];
    forall i | 0 <= i < |log| ensures log[i].RemoveContainer? && HasContainer(w, log[i].cid) {
      assert Obtained(s, s.terminate[i + 1].cid);
      var n :| n in s.containers && s.containers[n] == s.terminate[i + 1].cid;
      assert n in w.containers && w.containers[n].id == log[i].cid;
    }
    RemovesContainers(w, log);
    forall c ensures RemoveContainer(c) in log <==> Obtained(s, c) {
      if RemoveContainer(c) in log {
        var i :| 0 <= i < |log| && log[i] == RemoveContainer(c);
        assert Obtained(s, s.terminate[i + 1].cid);
      }
    }
  }

  /** Every container that was attached to the network before has been obtained by the namespace. */
  ghost predicate AllOurs(s: Space, w0: World) {
    forall a :: a in w0.attached && a.0 == s.net ==> Obtained(s, a.1)
  }

  /** With all calls getting through, a take-over release succeeds if and only if every container that
      was attached to the network has been obtained; so always if the network is the namespace's own. */
  lemma TakeOverExactly(w0: World, name: string, env: Env, calls: seq<(Want, Env)>, s: Space, w: World)
    requires Reached(TakeOver, w0, name, env, calls, s, w) && UniqueIds(w0)
    ensures Unwound(w, s.terminate).Some? <==> AllOurs(s, w0)
    ensures name !in w0.networks ==> AllOurs(s, w0)
  {
    ReachedTakeOver(w0, name, env, calls, s, w);
    LogTail(s, w);
    UnwoundSplit(w, s.terminate);
    var w' := Unwound(w, s.terminate[1..]).value;
    var n :| n in w.networks && w.networks[n] == s.net;
    assert n in w'.networks && HasNetwork(w', s.net);
    assert (exists a :: a in w'.attached && a.0 == s.net) <==> !AllOurs(s, w0) by {
      if a :| a in w0.attached && a.0 == s.net && !Obtained(s, a.1) {
        assert a in w'.attached;
      }
      if a :| a in w'.attached && a.0 == s.net {
        assert a in w0.attached && !Obtained(s, a.1);
      }
    }
    if name !in w0.networks {
      OwnNetwork(w0, name, env, calls, s, w);
    }
  }

  lemma OwnNetwork(w0: World, name: string, env: Env, calls: seq<(Want, Env)>, s: Space, w: World)
    requires Reached(TakeOver, w0, name, env, calls, s, w) && name !in w0.networks
    ensures forall a :: a in w0.attached ==> a.0 != s.net
  {
    var (w1, o) := Open(TakeOver, w0, name, env);
    SamePolicy(o.value, w1, calls);
    forall a | a in w0.attached ensures a.0 != s.net {
      assert HasNetwork(w0, a.0);
    }
  }

  /** Take-over removes the network and every container obtained, existing before or not, unless
      somebody else's container is attached to the network. */
  lemma TakeOverRemovesAll(w0: World, name: string, env: Env, calls: seq<(Want, Env)>, s: Space, w: World)
    requires Reached(TakeOver, w0, name, env, calls, s, w) && UniqueIds(w0) && AllOurs(s, w0)
    ensures Unwound(w, s.terminate).Some?
    ensures var w' := Unwound(w, s.terminate).value;
            !HasNetwork(w', s.net) && forall n :: n in s.containers ==> !HasContainer(w', s.containers[n])
  {
    TakeOverExactly(w0, name, env, calls, s, w);
    ReachedTakeOver(w0, name, env, calls, s, w);
    UnwoundRemoves(w, s.terminate);
    var w' := Unwound(w, s.terminate).value;
    assert s.terminate[0] in s.terminate && Gone(w', RemoveNetwork(s.net));
    forall n | n in s.containers ensures !HasContainer(w', s.containers[n]) {
      assert RemoveContainer(s.containers[n]) in s.terminate[1..];
      assert RemoveContainer(s.containers[n]) in s.terminate;
      assert Gone(w', RemoveContainer(s.containers[n]));
    }
  }

  // ----- a release in which some calls fail

  lemma UndoShrinks(w: World, u: Undo, ok: bool, c: nat)
    ensures var r := if ok then Undone(w, u) else None;
            var w' := if r.Some? then r.value else w;
            && (HasContainer(w', c) ==> HasContainer(w, c))
            && (ok && u == RemoveContainer(c) ==> !HasContainer(w', c))
  {
    if ok && Undone(w, u).Some? {
      UndoneShrinks(w, u);
    }
  }

  /** A container whose removal gets through is gone, whatever happens to the other calls. */
  lemma {:induction false} RemovedIsGone(w: World, log: seq<Undo>, oks: seq<bool>, c: nat)
    requires |log| == |oks|
    ensures HasContainer(Released(w, log, oks), c) ==> HasContainer(w, c)
    ensures (exists i :: 0 <= i < |log| && log[i] == RemoveContainer(c) && oks[i]) ==> !HasContainer(Released(w, log, oks), c)
    decreases |log|
  {
    if log != [] {
      var n := |log| - 1;
      var r := if oks[n] then Undone(w, log[n]) else None;
      var w' := if r.Some? then r.value else w;
      UndoShrinks(w, log[n], oks[n], c);
      RemovedIsGone(w', log[..n], oks[..n], c);
      assert forall i :: 0 <= i < n ==> log[..n][i] == log[i] && oks[..n][i] == oks[i];
    }
  }

  lemma EntryOf(s: Space, n: string) returns (i: nat)
    requires RemovesEach(s) && n in s.containers
    ensures i < |s.terminate| && s.terminate[i] == RemoveContainer(s.containers[n])
  {
    var j :| 0 <= j < |s.terminate[1..]| && s.terminate[1..][j] == RemoveContainer(s.containers[n]);
    i := j + 1;
  }

  /** Take-over: every container of the namespace whose removal gets through is gone, also where the
      removal of the network or of others fails. */
  lemma TakeOverRemovesEach(w0: World, name: string, env: Env, calls: seq<(Want, Env)>, s: Space, w: World, oks: seq<bool>, n: string) returns (i: nat)
    requires Reached(TakeOver, w0, name, env, calls, s, w) && UniqueIds(w0) && |oks| == |s.terminate| && n in s.containers
    ensures i < |s.terminate| && s.terminate[i] == RemoveContainer(s.containers[n])
    ensures oks[i] ==> !HasContainer(Released(w, s.terminate, oks), s.containers[n])
  {
    ReachedTakeOver(w0, name, env, calls, s, w);
    i := EntryOf(s, n);
    RemovedIsGone(w, s.terminate, oks, s.containers[n]);
  }

  // ----- somebody else's container on the network

  lemma UndoKeepsForeign(w: World, u: Undo, a: (nat, nat))
    requires a in w.attached && HasNetwork(w, a.0) && Undone(w, u).Some?
    requires u != RemoveContainer(a.1) && u != Disconnect(a.0, a.1)
    ensures a in Undone(w, u).value.attached && HasNetwork(Undone(w, u).value, a.0)
  {
    var w' := Undone(w, u).value;
    var n :| n in w.networks && w.networks[n] == a.0;
    assert n in w'.networks && w'.networks[n] == a.0;
  }

  lemma {:induction false} ReleaseKeepsForeign(w: World, log: seq<Undo>, oks: seq<bool>, a: (nat, nat))
    requires |log| == |oks| && a in w.attached && HasNetwork(w, a.0)
    requires RemoveContainer(a.1) !in log && Disconnect(a.0, a.1) !in log
    ensures a in Released(w, log, oks).attached && HasNetwork(Released(w, log, oks), a.0)
    decreases |log|
  {
    if log != [] {
      var n := |log| - 1;
      var r := if oks[n] then Undone(w, log[n]) else None;
      assert log[n] in log;
      if r.Some? {
        UndoKeepsForeign(w, log[n], a);
      }
      ReleaseKeepsForeign(if r.Some? then r.value else w, log[..n], oks[..n], a);
    }
  }

  /** Where take-over fails: if the network has a container that the namespace has not obtained, the
      release reports an error and leaves that network behind, whichever calls get through. */
  lemma ForeignKeepsNetwork(w0: World, name: string, env: Env, calls: seq<(Want, Env)>, s: Space, w: World, a: (nat, nat), oks: seq<bool>)
    requires Reached(TakeOver, w0, name, env, calls, s, w) && UniqueIds(w0) && |oks| == |s.terminate|
    requires a in w0.attached && a.0 == s.net && !Obtained(s, a.1)
    ensures Unwound(w, s.terminate).None?
    ensures HasNetwork(Released(w, s.terminate, oks), s.net) && a in Released(w, s.terminate, oks).attached
  {
    TakeOverExactly(w0, name, env, calls, s, w);
    ReachedTakeOver(w0, name, env, calls, s, w);
    forall u | u in s.terminate ensures u != RemoveContainer(a.1) && u != Disconnect(a.0, a.1) {
      var i :| 0 <= i < |s.terminate| && s.terminate[i] == u;
      assert i > 0 ==> Obtained(s, s.terminate[i].cid);
    }
    ReleaseKeepsForeign(w, s.terminate, oks, a);
  }

  /** Such a namespace exists for every network with a container on it: one that is opened there and
      obtains nothing. */
  lemma ForeignFamily(w0: World, name: string, env: Env, a: (nat, nat))
    requires Consistent(w0) && FreshId(w0, env.id) && env.list && env.host
    requires name in w0.networks && a in w0.attached && a.0 == w0.networks[name]
    ensures var s := Space(TakeOver, w0.networks[name], [RemoveNetwork(w0.networks[name])], map[]);
            Reached(TakeOver, w0, name, env, [], s, w0) && !Obtained(s, a.1) && Unwound(w0, s.terminate).None?
  {
    var s := Space(TakeOver, w0.networks[name], [RemoveNetwork(w0.networks[name])], map[]);
    assert Open(TakeOver, w0, name, env) == (w0, Some(s));
  }
}
