/** When a namespace opens and when it hands out a container, by policy, and whose the containers are. */
module DockerPolicies {
  import opened Basics
  import opened DockerUndo
  import opened DockerTakeOver

  // ----- when calls succeed

  /** Opening succeeds if and only if the networks can be listed, a network of that name can be used or
      made under the policy, and the host address is found. */
  lemma OpenExactly(policy: Policy, w: World, name: string, env: Env)
    ensures Open(policy, w, name, env).1.Some? <==>
            && env.list && env.host
            && (name in w.networks ==> policy == Reuse || policy == Reusable || policy == TakeOver)
            && (name !in w.networks ==> env.act && env.inspect)
    ensures policy == Error && Open(policy, w, name, env).1.Some? ==> name !in w.networks
    ensures var (w', s) := Open(policy, w, name, env);
            s.Some? ==> name in w'.networks && s.value.net == w'.networks[name] && s.value.policy == policy && s.value.containers == map[]
  {
  }

  /** A container that exists under the wanted name can be handed out: by policy, by its image and
      configuration, because it runs or has not been started, and because it is or can be connected. */
  predicate Usable(s: Space, w: World, c: Container, want: Want, env: Env) {
    && (s.policy == Reuse || s.policy == Reusable || s.policy == TakeOver)
    && c.image == want.image && env.inspect && env.same
    && (c.state == Running || c.state == Created)
    && ((s.net, c.id) in w.attached || env.act)
  }

  /** A call succeeds if and only if the container is known to the namespace and its configuration
      agrees; or it exists and is usable; or it does not exist, and its image, if it is to be pulled,
      can be pulled, and it can be created. */
  lemma ObtainExactly(s: Space, w: World, want: Want, env: Env)
    ensures Obtain(s, w, want, env).2.Some? <==>
            || (want.name in s.containers && env.same)
            || (want.name !in s.containers && env.list && want.name in w.containers && Usable(s, w, w.containers[want.name], want, env))
            || (want.name !in s.containers && env.list && want.name !in w.containers && env.act && (want.pull ==> env.pull))
  {
  }

  /** What a container that is new to the namespace is attached to afterwards: one that existed to the
      namespace's network, a new one to the networks of its configuration. */
  lemma ObtainAttaches(s: Space, w: World, want: Want, env: Env)
    requires want.name !in s.containers && Obtain(s, w, want, env).2.Some?
    ensures var (s', w', id) := Obtain(s, w, want, env);
            forall a :: a in w'.attached <==>
              a in w.attached || (a.1 == id.value && if want.name in w.containers then a.0 == s.net else a.0 in want.nets)
  {
  }

  // ----- whose the containers are

  /** A container of the namespace existed before under its name, and then it was usable under the
      policy; or its identifier is new. */
  ghost predicate Whose(s: Space, w0: World, w: World, n: string)
    requires n in s.containers
  {
    && n in w.containers && w.containers[n].id == s.containers[n]
    && (w.containers[n].state == Running || w.containers[n].state == Created)
    && if n in w0.containers then s.policy != Error && w.containers[n] == w0.containers[n] else !HasContainer(w0, s.containers[n])
  }

  /** Every container the namespace has; the world has no containers but those it had before and
      those the namespace has made. */
  ghost predicate AllWhose(s: Space, w0: World, w: World) {
    && Keeps(w0, w)
    && (forall n :: n in s.containers ==> Whose(s, w0, w, n))
    && (forall n :: n in w.containers ==> n in w0.containers || n in s.containers)
  }

  lemma ObtainWhose(s: Space, w0: World, w: World, want: Want, env: Env)
    requires AllWhose(s, w0, w) && FreshId(w, env.id)
    ensures AllWhose(Obtain(s, w, want, env).0, w0, Obtain(s, w, want, env).1)
  {
    var (s', w', _) := Obtain(s, w, want, env);
    FreshSince(w0, w, env.id);
    forall n | n in s'.containers ensures Whose(s', w0, w', n) {
      assert n in s.containers ==> Whose(s, w0, w, n);
    }
  }

  lemma {:induction false} CallsWhose(s: Space, w0: World, w: World, calls: seq<(Want, Env)>)
    requires AllWhose(s, w0, w) && Sane(s, w, calls)
    ensures AllWhose(ObtainAll(s, w, calls).0, w0, ObtainAll(s, w, calls).1)
  {
    if calls != [] {
      var front, call := calls[..|calls| - 1], calls[|calls| - 1];
      CallsWhose(s, w0, w, front);
      var (s', w') := ObtainAll(s, w, front);
      ObtainWhose(s', w0, w', call.0, call.1);
    }
  }

  /** Whose the containers of a namespace are, after any calls: under the error policy all of them are
      its own; under the others one that existed before is the one it was, and a paused or stopped
      container is never handed out. */
  lemma Ownership(policy: Policy, w0: World, name: string, env: Env, calls: seq<(Want, Env)>, s: Space, w: World, n: string)
    requires Reached(policy, w0, name, env, calls, s, w) && n in s.containers
    ensures n in w.containers && w.containers[n].id == s.containers[n]
    ensures w.containers[n].state == Running || w.containers[n].state == Created
    ensures n in w0.containers ==> w0.containers[n] == w.containers[n]
    ensures policy == Error ==> n !in w0.containers
    ensures n !in w0.containers ==> !HasContainer(w0, s.containers[n])
  {
    var (w1, o) := Open(policy, w0, name, env);
    assert AllWhose(o.value, w0, w1);
    CallsWhose(o.value, w0, w1, calls);
    SamePolicy(o.value, w1, calls);
    assert Whose(s, w0, w, n);
  }

  // ----- the reusable policy

  /** The log disconnects, once each, exactly the containers that existed before and were connected
      to the network by the namespace. */
  ghost predicate Detaches(s: Space, w0: World, w: World) {
    && s.policy == Reusable
    && (forall i :: 0 <= i < |s.terminate| ==> s.terminate[i].Disconnect? && (s.terminate[i].net, s.terminate[i].cid) in w.attached)
    && (forall i :: 0 <= i < |s.terminate| ==>
          HasContainer(w0, s.terminate[i].cid) && (s.terminate[i].net, s.terminate[i].cid) !in w0.attached)
    && (forall i, j :: 0 <= i < j < |s.terminate| ==> s.terminate[i] != s.terminate[j])
    && (forall a :: a in w.attached ==> a in w0.attached || !HasContainer(w0, a.1) || Disconnect(a.0, a.1) in s.terminate)
  }

  lemma ObtainDetaches(s: Space, w0: World, w: World, want: Want, env: Env)
    requires Detaches(s, w0, w) && AllWhose(s, w0, w) && FreshId(w, env.id)
    ensures Detaches(Obtain(s, w, want, env).0, w0, Obtain(s, w, want, env).1)
  {
    var (s', w', id) := Obtain(s, w, want, env);
    FreshSince(w0, w, env.id);
    if want.name !in s.containers && id.Some? {
      ObtainAttaches(s, w, want, env);
      var cid := id.value;
      if want.name in w.containers && (s.net, cid) !in w.attached {
        assert w0.containers[want.name].id == cid && HasContainer(w0, cid);
        assert s'.terminate == s.terminate + [Disconnect(s.net, cid)];
      } else {
        assert s'.terminate == s.terminate;
      }
    }
  }

  lemma {:induction false} CallsDetach(s: Space, w0: World, w: World, calls: seq<(Want, Env)>)
    requires Detaches(s, w0, w) && AllWhose(s, w0, w) && Sane(s, w, calls)
    ensures Detaches(ObtainAll(s, w, calls).0, w0, ObtainAll(s, w, calls).1)
  {
    if calls != [] {
      var front, call := calls[..|calls| - 1], calls[|calls| - 1];
      CallsDetach(s, w0, w, front);
      CallsWhose(s, w0, w, front);
      var (s', w') := ObtainAll(s, w, front);
      ObtainDetaches(s', w0, w', call.0, call.1);
    }
  }

  lemma {:induction false} UnwoundDetaches(w: World, log: seq<Undo>)
    requires forall i :: 0 <= i < |log| ==> log[i].Disconnect? && (log[i].net, log[i].cid) in w.attached
    requires forall i, j :: 0 <= i < j < |log| ==> log[i] != log[j]
    ensures Unwound(w, log).Some?
    ensures var w' := Unwound(w, log).value;
            && w'.networks == w.networks && w'.containers == w.containers
            && forall a :: a in w'.attached <==> a in w.attached && Disconnect(a.0, a.1) !in log
    decreases |log|
  {
    if log != [] {
      var n := |log| - 1;
      UnwoundDetaches(Undone(w, log[n]).value, log[..n]);
      assert log == log[..n] + [log[n]];
    }
  }

  /** Under the reusable policy a release whose calls get through succeeds and only disconnects: it
      leaves every network and container, and exactly the attachments that existed before and those of
      the namespace's own containers. */
  lemma ReusableExactly(w0: World, name: string, env: Env, calls: seq<(Want, Env)>, s: Space, w: World)
    requires Reached(Reusable, w0, name, env, calls, s, w)
    ensures Unwound(w, s.terminate).Some?
    ensures var w' := Unwound(w, s.terminate).value;
            && w'.networks == w.networks && w'.containers == w.containers
            && forall a :: a in w'.attached <==> a in w0.attached || (a in w.attached && !HasContainer(w0, a.1))
  {
    var (w1, o) := Open(Reusable, w0, name, env);
    CallsDetach(o.value, w0, w1, calls);
    CallsWhose(o.value, w0, w1, calls);
    UnwoundDetaches(w, s.terminate);
    forall a | a in w.attached && Disconnect(a.0, a.1) in s.terminate ensures HasContainer(w0, a.1) && a !in w0.attached {
      var i :| 0 <= i < |s.terminate| && s.terminate[i] == Disconnect(a.0, a.1);
      assert HasContainer(w0, s.terminate[i].cid);
    }
  }
}
