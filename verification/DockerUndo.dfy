/** The undo log of a Docker namespace: every resource obtained registers, depending on the resource
    policy, how to give it back, and the release runs the log in reverse. */
module DockerUndo {
  import opened Basics

  datatype Policy = Error | Reuse | Reusable | TakeOver

  datatype ContainerState = Running | Created | Paused | OtherState

  datatype Container = Container(id: nat, image: string, state: ContainerState)

  /** What Docker holds: networks and containers by name, and which container is attached to which
      network. */
  datatype World = World(networks: map<string, nat>, containers: map<string, Container>, attached: set<(nat, nat)>)

  datatype Undo = RemoveNetwork(net: nat) | RemoveContainer(cid: nat) | Disconnect(net: nat, cid: nat)

  predicate HasNetwork(w: World, net: nat) {
    exists n :: n in w.networks && w.networks[n] == net
  }

  predicate HasContainer(w: World, cid: nat) {
    exists n :: n in w.containers && w.containers[n].id == cid
  }

  /** Attachments join a network and a container that exist. */
  ghost predicate Consistent(w: World) {
    forall a :: a in w.attached ==> HasNetwork(w, a.0) && HasContainer(w, a.1)
  }

  /** One undo call on Docker; it fails on what is not there, and a network in use is not removed. */
  function Undone(w: World, u: Undo): Option<World> {
    match u
    case RemoveNetwork(net) =>
      if !HasNetwork(w, net) || exists a :: a in w.attached && a.0 == net then None
      else Some(w.(networks := map n | n in w.networks && w.networks[n] != net :: w.networks[n]))
    case RemoveContainer(cid) =>
      if !HasContainer(w, cid) then None
      else Some(World(w.networks,
                      map n | n in w.containers && w.containers[n].id != cid :: w.containers[n],
                      set a | a in w.attached && a.1 != cid))
    case Disconnect(net, cid) =>
      if (net, cid) !in w.attached then None else Some(w.(attached := w.attached - {(net, cid)}))
  }

  // ----- obtaining resources

  /** Which Docker calls of one operation succeed, and the identifier Docker gives to a new object. */
  datatype Env = Env(list: bool, pull: bool, inspect: bool, same: bool, act: bool, host: bool, id: nat)

  /** A namespace: the policy, the network used, the undo log and the containers obtained. */
  datatype Space = Space(policy: Policy, net: nat, terminate: seq<Undo>, containers: map<string, nat>)

  ghost predicate FreshId(w: World, id: nat) {
    !HasNetwork(w, id) && !HasContainer(w, id)
  }

  predicate Registers(policy: Policy, created: bool) {
    (created && policy != Reusable) || policy == TakeOver
  }

  /** Opening a namespace: the world afterwards, and the namespace unless a call failed. */
  function Open(policy: Policy, w: World, name: string, env: Env): (World, Option<Space>) {
    if !env.list || (name in w.networks && policy == Error) then (w, None)
    else
      var created := name !in w.networks;
      if created && !env.act then (w, None)
      else
        var w' := if created then w.(networks := w.networks[name := env.id]) else w;
        if (created && !env.inspect) || !env.host then (w', None)
        else
          var net := w'.networks[name];
          (w', Some(Space(policy, net, if Registers(policy, created) then [RemoveNetwork(net)] else [], map[])))
  }

  /** A container wanted: its name and image, the networks its configuration joins, and whether an
      image pull is asked for. */
  datatype Want = Want(name: string, image: string, nets: set<nat>, pull: bool)

  /** Obtaining a container: an existing one is reused and connected, a missing one is created. */
  function Obtain(s: Space, w: World, want: Want, env: Env): (Space, World, Option<nat>) {
    if want.name in s.containers then
      (s, w, if env.same then Some(s.containers[want.name]) else None)
    else if !env.list then (s, w, None)
    else if want.name in w.containers then
      var c := w.containers[want.name];
      if c.image != want.image || s.policy == Error || !env.inspect || !env.same then (s, w, None)
      else if !c.state.Running? && !c.state.Created? then (s, w, None)
      else
        var connect := (s.net, c.id) !in w.attached;
        if connect && !env.act then (s, w, None)
        else
          var undo := if s.policy == TakeOver then [RemoveContainer(c.id)] else if connect then [Disconnect(s.net, c.id)] else [];
          (Space(s.policy, s.net, s.terminate + undo, s.containers[want.name := c.id]),
           w.(attached := w.attached + {(s.net, c.id)}),
           Some(c.id))
    else if (want.pull && !env.pull) || !env.act then (s, w, None)
    else
      var undo := if Registers(s.policy, true) then [RemoveContainer(env.id)] else [];
      (Space(s.policy, s.net, s.terminate + undo, s.containers[want.name := env.id]),
       World(w.networks, w.containers[want.name := Container(env.id, want.image, Created)],
             w.attached + set n | n in want.nets :: (n, env.id)),
       Some(env.id))
  }

  /** Any sequence of successful and failed calls. */
  function ObtainAll(s: Space, w: World, calls: seq<(Want, Env)>): (Space, World) {
    if calls == [] then (s, w)
    else
      var (s', w') := ObtainAll(s, w, calls[..|calls| - 1]);
      var call := calls[|calls| - 1];
      var r := Obtain(s', w', call.0, call.1);
      (r.0, r.1)
  }

  /** Docker gives new identifiers, and a configuration joins networks that exist. */
  ghost predicate Sane(s: Space, w: World, calls: seq<(Want, Env)>) {
    calls == [] ||
    (var front, call := calls[..|calls| - 1], calls[|calls| - 1];
     var w' := ObtainAll(s, w, front).1;
     && Sane(s, w, front)
     && FreshId(w', call.1.id)
     && (forall n :: n in call.0.nets ==> HasNetwork(w', n)))
  }

  // ----- release

  /** The world after running the log in reverse; `oks[i]` tells whether the call of entry `i` gets
      through to Docker. */
  function Released(w: World, log: seq<Undo>, oks: seq<bool>): World
    requires |log| == |oks|
    decreases |log|
  {
    if log == [] then w
    else
      var n := |log| - 1;
      var r := if oks[n] then Undone(w, log[n]) else None;
      Released(if r.Some? then r.value else w, log[..n], oks[..n])
  }

  /** The world after a release in which every call succeeds, if there is one. */
  function Unwound(w: World, log: seq<Undo>): Option<World>
    decreases |log|
  {
    if log == [] then Some(w)
    else
      var r := Undone(w, log[|log| - 1]);
      if r.None? then None else Unwound(r.value, log[..|log| - 1])
  }

  function Reversed(log: seq<Undo>): seq<Undo> {
    if log == [] then [] else [log[|log| - 1]] + Reversed(log[..|log| - 1])
  }

  /** The Docker daemon as seen by this process. */
  class Docker {
    var world: World

    constructor (w: World)
      ensures world == w
    {
      world := w;
    }

    /** One undo call that reaches the daemon if `ok`. */
    method Run(u: Undo, ok: bool) returns (done: bool)
      modifies this
      ensures done <==> ok && Undone(old(world), u).Some?
      ensures world == if done then Undone(old(world), u).value else old(world)
    {
      var r := if ok then Undone(world, u) else None;
      done := r.Some?;
      if done {
        world := r.value;
      }
    }
  }

  class DockerBackend {
    const docker: Docker
    const policy: Policy

    constructor (docker: Docker, policy: Policy)
      ensures this.docker == docker && this.policy == policy
    {
      this.docker, this.policy := docker, policy;
    }

    /** Namespace: finds or creates the network and registers its removal. */
    method Namespace(name: string, env: Env) returns (ns: DockerNamespace?)
      modifies docker
      ensures docker.world == Open(policy, old(docker.world), name, env).0
      ensures ns == null <==> Open(policy, old(docker.world), name, env).1.None?
      ensures ns != null ==> ns.docker == docker && Open(policy, old(docker.world), name, env).1 == Some(ns.Value())
    {
      if !env.list {
        return null;
      }
      var created := name !in docker.world.networks;
      if !created && policy == Error {
        return null;
      }
      if created {
        if !env.act {
          return null;
        }
        docker.world := docker.world.(networks := docker.world.networks[name := env.id]);
        if !env.inspect {
          return null;
        }
      }
      if !env.host {
        return null;
      }
      var net := docker.world.networks[name];
      var term := [];
      if (created && policy != Reusable) || policy == TakeOver {
        term := [RemoveNetwork(net)];
      }
      ns := new DockerNamespace(docker, Space(policy, net, term, map[]));
    }
  }

  class DockerNamespace {
    const docker: Docker
    const policy: Policy
    const net: nat
    var terminate: seq<Undo>
    var containers: map<string, nat>

    constructor (docker: Docker, s: Space)
      ensures this.docker == docker && Value() == s
    {
      this.docker, policy, net, terminate, containers := docker, s.policy, s.net, s.terminate, s.containers;
    }

    function Value(): Space
      reads this
    {
      Space(policy, net, terminate, containers)
    }

    /** CreateContainer, branch by branch. */
    method CreateContainer(want: Want, env: Env) returns (id: Option<nat>)
      modifies this, docker
      ensures (Value(), docker.world, id) == Obtain(old(Value()), old(docker.world), want, env)
    {
      var w := docker.world;
      if want.name in containers {
        return if env.same then Some(containers[want.name]) else None;
      }
      if !env.list {
        return None;
      }
      var existing, connected, cid := want.name in w.containers, false, env.id;
      if existing && w.containers[want.name].image != want.image {
        return None;
      }
      if !existing && want.pull && !env.pull {
        return None;
      }
      if existing {
        var c := w.containers[want.name];
        if policy == Error || !env.inspect || !env.same || !(c.state.Running? || c.state.Created?) {
          return None;
        }
        cid := c.id;
        if (net, cid) !in w.attached {
          if !env.act {
            return None;
          }
          docker.world := w.(attached := w.attached + {(net, cid)});
          connected := true;
        } else {
          assert w.attached + {(net, cid)} == w.attached;
        }
      } else {
        if !env.act {
          return None;
        }
        docker.world := World(w.networks, w.containers[want.name := Container(cid, want.image, Created)],
                              w.attached + set n | n in want.nets :: (n, cid));
      }
      if (!existing && policy != Reusable) || policy == TakeOver {
        terminate := terminate + [RemoveContainer(cid)];
      } else if connected {
        terminate := terminate + [Disconnect(net, cid)];
      }
      containers := containers[want.name := cid];
      assert old(terminate) + [] == old(terminate);
      id := Some(cid);
    }

    /** Runs every registered undo exactly once, last registered first, whatever fails. */
    method Release(oks: seq<bool>) returns (ran: seq<Undo>, failed: bool)
      requires |oks| == |terminate|
      modifies docker
      ensures ran == Reversed(terminate)
      ensures docker.world == Released(old(docker.world), terminate, oks)
      ensures !failed ==> Unwound(old(docker.world), terminate) == Some(docker.world)
      ensures failed <==> Unwound(old(docker.world), terminate).None? || exists j :: 0 <= j < |oks| && !oks[j]
    {
      ran, failed := [], false;
      var last := |terminate| - 1;
      assert terminate[..|terminate|] == terminate && oks[..|terminate|] == oks;
      ghost var all := Reversed(terminate);
      assert [] + all == all;
      for i := 0 to |terminate|
        invariant |terminate| == last + 1
        invariant ran + Reversed(terminate[..last + 1 - i]) == all
        invariant Released(docker.world, terminate[..last + 1 - i], oks[..last + 1 - i]) == Released(old(docker.world), terminate, oks)
        invariant !failed ==> Unwound(docker.world, terminate[..last + 1 - i]) == Unwound(old(docker.world), terminate)
        invariant !failed ==> forall j :: last + 1 - i <= j < |oks| ==> oks[j]
        invariant failed ==> Unwound(old(docker.world), terminate).None? || exists j :: 0 <= j < |oks| && !oks[j]
      {
        var n := last - i;
        assert terminate[..n + 1][..n] == terminate[..n] && oks[..n + 1][..n] == oks[..n];
        ghost var before := Reversed(terminate[..n]);
        assert Reversed(terminate[..n + 1]) == [terminate[n]] + before;
        assert ran + ([terminate[n]] + before) == ran + [terminate[n]] + before;
        var done := docker.Run(terminate[n], oks[n]);
        failed := failed || !done;
        ran := ran + [terminate[n]];
      }
    }
  }

  // ----- what a namespace has

  /** Every container of the namespace exists under its name. */
  ghost predicate Registered(s: Space, w: World) {
    forall n :: n in s.containers ==> n in w.containers && w.containers[n].id == s.containers[n]
  }

  /** A failed call changes nothing. A successful one gives a container of that name, known to the
      namespace from now on, of the image wanted and attached to the namespace's network if it is new
      to the namespace and its configuration joins that network; and a repetition gives it again. */
  lemma ObtainGives(s: Space, w: World, want: Want, env: Env, again: Env)
    requires Registered(s, w)
    ensures var (s', w', id) := Obtain(s, w, want, env);
            && Registered(s', w')
            && (id.None? ==> s' == s && w' == w)
            && (id.Some? ==>
                  && s'.containers == s.containers[want.name := id.value]
                  && want.name in w'.containers && w'.containers[want.name].id == id.value
                  && (want.name !in s.containers ==> w'.containers[want.name].image == want.image)
                  && (want.name !in s.containers && (want.name in w.containers || s.net in want.nets) ==> (s.net, id.value) in w'.attached)
                  && (again.same ==> Obtain(s', w', want, again) == (s', w', id)))
  {
    var (s', w', id) := Obtain(s, w, want, env);
    if want.name in s.containers {
      assert s.containers == s.containers[want.name := s.containers[want.name]];
    }
  }

  lemma {:induction false} CallsGive(s: Space, w: World, calls: seq<(Want, Env)>)
    requires Registered(s, w)
    ensures Registered(ObtainAll(s, w, calls).0, ObtainAll(s, w, calls).1)
  {
    if calls != [] {
      var front, call := calls[..|calls| - 1], calls[|calls| - 1];
      CallsGive(s, w, front);
      var (s', w') := ObtainAll(s, w, front);
      ObtainGives(s', w', call.0, call.1, call.1);
    }
  }

  // ----- under error and reuse, release restores the world

  /** The world holds its network, and new networks and containers have new identifiers. */
  ghost predicate Sound(s: Space, w: World) {
    Consistent(w) && HasNetwork(w, s.net)
  }

  lemma ObtainSound(s: Space, w: World, want: Want, env: Env)
    requires Sound(s, w) && FreshId(w, env.id) && forall n :: n in want.nets ==> HasNetwork(w, n)
    ensures var r := Obtain(s, w, want, env); Sound(r.0, r.1) && r.1.networks == w.networks
  {
    var w' := Obtain(s, w, want, env).1;
    assert w'.networks == w.networks;
    forall a | a in w'.attached ensures HasNetwork(w', a.0) && HasContainer(w', a.1) {
      if want.name in w.containers {
        assert HasContainer(w, w.containers[want.name].id);
      } else if a in w.attached {
        var n :| n in w.containers && w.containers[n].id == a.1;
        assert n in w'.containers && w'.containers[n].id == a.1;
      } else {
        assert a.1 == env.id && w'.containers[want.name].id == env.id;
      }
      assert HasNetwork(w, a.0) ==> HasNetwork(w', a.0);
    }
  }

  /** Under error and reuse the undo of a call is its exact inverse. */
  lemma ObtainUndoes(s: Space, w: World, want: Want, env: Env)
    requires (s.policy == Error || s.policy == Reuse) && Sound(s, w) && FreshId(w, env.id)
    ensures var r := Obtain(s, w, want, env);
            r.0.policy == s.policy && Unwound(r.1, r.0.terminate) == Unwound(w, s.terminate)
  {
    var (s', w', _) := Obtain(s, w, want, env);
    if s'.terminate == s.terminate {
      assert w'.attached == w.attached;
    } else {
      assert s'.terminate[..|s'.terminate| - 1] == s.terminate;
      var u := s'.terminate[|s'.terminate| - 1];
      if u.Disconnect? {
        assert w'.attached - {(u.net, u.cid)} == w.attached;
      } else {
        CreationUndone(w, w', want, env);
      }
    }
  }

  lemma CreationUndone(w: World, w': World, want: Want, env: Env)
    requires Consistent(w) && FreshId(w, env.id) && want.name !in w.containers
    requires w' == World(w.networks, w.containers[want.name := Container(env.id, want.image, Created)],
                         w.attached + set n | n in want.nets :: (n, env.id))
    ensures Undone(w', RemoveContainer(env.id)) == Some(w)
  {
    assert w'.containers[want.name].id == env.id;
    forall a | a in w.attached ensures a.1 != env.id {
      assert HasContainer(w, a.1);
    }
    forall n | n in w.containers ensures w.containers[n].id != env.id {
      assert HasContainer(w, w.containers[n].id);
    }
    assert (set a | a in w'.attached && a.1 != env.id) == w.attached;
    assert (map n | n in w'.containers && w'.containers[n].id != env.id :: w'.containers[n]) == w.containers;
  }

  lemma {:induction false} CallsUndo(s: Space, w: World, calls: seq<(Want, Env)>)
    requires (s.policy == Error || s.policy == Reuse) && Sound(s, w) && Sane(s, w, calls)
    ensures var r := ObtainAll(s, w, calls);
            r.0.policy == s.policy && Sound(r.0, r.1) && Unwound(r.1, r.0.terminate) == Unwound(w, s.terminate)
  {
    if calls != [] {
      var front, call := calls[..|calls| - 1], calls[|calls| - 1];
      CallsUndo(s, w, front);
      var (s', w') := ObtainAll(s, w, front);
      ObtainSound(s', w', call.0, call.1);
      ObtainUndoes(s', w', call.0, call.1);
    }
  }

  lemma OpenSound(policy: Policy, w0: World, name: string, env: Env)
    requires Consistent(w0) && FreshId(w0, env.id)
    ensures var r := Open(policy, w0, name, env); r.1.Some? ==> Sound(r.1.value, r.0)
  {
    var (w, s) := Open(policy, w0, name, env);
    if s.Some? {
      assert name in w.networks && w.networks[name] == s.value.net;
      forall a | a in w.attached ensures HasNetwork(w, a.0) && HasContainer(w, a.1) {
        var n :| n in w0.networks && w0.networks[n] == a.0;
        assert n in w.networks && w.networks[n] == a.0;
        assert HasContainer(w0, a.1);
      }
    }
  }

  lemma OpenUndoes(policy: Policy, w0: World, name: string, env: Env)
    requires (policy == Error || policy == Reuse) && Consistent(w0) && FreshId(w0, env.id)
    ensures var r := Open(policy, w0, name, env); r.1.Some? ==> Unwound(r.0, r.1.value.terminate) == Some(w0)
  {
    var (w, s) := Open(policy, w0, name, env);
    if s.Some? && name !in w0.networks {
      assert w.networks[name] == env.id;
      forall a | a in w.attached ensures a.0 != env.id {
        assert HasNetwork(w0, a.0);
      }
      forall n | n in w0.networks ensures w0.networks[n] != env.id {
        assert HasNetwork(w0, w0.networks[n]);
      }
      assert (map n | n in w.networks && w.networks[n] != env.id :: w.networks[n]) == w0.networks;
      assert s.value.terminate[..0] == [];
    }
  }

  /** Under error and reuse, whatever sequence of calls succeeds or fails, repeats included, a
      release whose calls get through ends in exactly the world the namespace was opened in. */
  lemma ReleaseRestores(policy: Policy, w0: World, name: string, env: Env, calls: seq<(Want, Env)>)
    requires (policy == Error || policy == Reuse) && Consistent(w0) && FreshId(w0, env.id)
    requires Open(policy, w0, name, env).1.Some?
    requires Sane(Open(policy, w0, name, env).1.value, Open(policy, w0, name, env).0, calls)
    ensures var (w, s) := Open(policy, w0, name, env);
            var (s', w') := ObtainAll(s.value, w, calls);
            Unwound(w', s'.terminate) == Some(w0)
  {
    var (w, s) := Open(policy, w0, name, env);
    OpenSound(policy, w0, name, env);
    OpenUndoes(policy, w0, name, env);
    CallsUndo(s.value, w, calls);
  }

  /** A namespace that cannot be opened leaves Docker as it was, unless its network was created and
      then could not be inspected or the host address not be resolved: that network stays behind. */
  lemma OpenFailure(policy: Policy, w0: World, name: string, env: Env)
    requires FreshId(w0, env.id) && Open(policy, w0, name, env).1.None?
    ensures Open(policy, w0, name, env).0 != w0 <==>
            env.list && name !in w0.networks && env.act && (!env.inspect || !env.host)
  {
  }

  // ----- order and policy of the undo log

  /** What a successful release removes is gone, and nothing is added. */
  lemma {:induction false} UnwoundRemoves(w: World, log: seq<Undo>)
    requires Unwound(w, log).Some?
    ensures var w' := Unwound(w, log).value;
            && w'.attached <= w.attached
            && (forall n :: HasNetwork(w', n) ==> HasNetwork(w, n))
            && (forall c :: HasContainer(w', c) ==> HasContainer(w, c))
            && (forall u :: u in log ==> Gone(w', u))
    decreases |log|
  {
    if log != [] {
      var n := |log| - 1;
      var w1 := Undone(w, log[n]).value;
      UndoneShrinks(w, log[n]);
      UnwoundRemoves(w1, log[..n]);
      var w' := Unwound(w1, log[..n]).value;
      forall u | u in log ensures Gone(w', u) {
        if u !in log[..n] {
          assert u == log[n];
          assert Gone(w1, u);
        }
      }
    }
  }

  /** The resource of the undo no longer exists. */
  ghost predicate Gone(w: World, u: Undo) {
    match u
    case RemoveNetwork(net) => !HasNetwork(w, net)
    case RemoveContainer(cid) => !HasContainer(w, cid) && forall a :: a in w.attached ==> a.1 != cid
    case Disconnect(net, cid) => (net, cid) !in w.attached
  }

  lemma UndoneShrinks(w: World, u: Undo)
    requires Undone(w, u).Some?
    ensures var w' := Undone(w, u).value;
            && w'.attached <= w.attached && Gone(w', u)
            && (forall n :: HasNetwork(w', n) ==> HasNetwork(w, n))
            && (forall c :: HasContainer(w', c) ==> HasContainer(w, c))
  {
    var w' := Undone(w, u).value;
    forall n | HasNetwork(w', n) ensures HasNetwork(w, n) {
      var m :| m in w'.networks && w'.networks[m] == n;
      assert m in w.networks && w.networks[m] == n;
    }
    forall c | HasContainer(w', c) ensures HasContainer(w, c) {
      var m :| m in w'.containers && w'.containers[m].id == c;
      assert m in w.containers && w.containers[m].id == c;
    }
  }

  /** What the log of a namespace looks like under its policy; `w0` is the world it was opened in. */
  ghost predicate LogOk(s: Space, w0: World, created: bool) {
    && (Registers(s.policy, created) ==> s.terminate != [] && s.terminate[0] == RemoveNetwork(s.net))
    && (forall i :: 0 <= i < |s.terminate| && s.terminate[i].RemoveNetwork? ==> i == 0 && Registers(s.policy, created))
    && (s.policy == Reusable ==> forall u :: u in s.terminate ==> u.Disconnect?)
    && (forall u :: u in s.terminate && u.Disconnect? ==> (u.net, u.cid) !in w0.attached)
    && (s.policy == TakeOver ==> forall n :: n in s.containers ==> RemoveContainer(s.containers[n]) in s.terminate)
    && (s.policy == Error || s.policy == Reuse ==> forall u :: u in s.terminate ==> Spares(w0, u))
  }

  /** The undo concerns nothing that was there before. */
  ghost predicate Spares(w0: World, u: Undo) {
    match u
    case RemoveNetwork(net) => !HasNetwork(w0, net)
    case RemoveContainer(cid) => !HasContainer(w0, cid)
    case Disconnect(net, cid) => (net, cid) !in w0.attached
  }

  /** Everything the world had when the namespace was opened is still there. */
  ghost predicate Keeps(w0: World, w: World) {
    && (forall n :: n in w0.networks ==> n in w.networks && w.networks[n] == w0.networks[n])
    && (forall n :: n in w0.containers ==> n in w.containers && w.containers[n] == w0.containers[n])
    && w0.attached <= w.attached
  }

  lemma OpenLog(policy: Policy, w0: World, name: string, env: Env)
    requires FreshId(w0, env.id) && Open(policy, w0, name, env).1.Some?
    ensures var (w, s) := Open(policy, w0, name, env); LogOk(s.value, w0, name !in w0.networks) && Keeps(w0, w)
  {
  }

  lemma FreshSince(w0: World, w: World, id: nat)
    requires Keeps(w0, w) && FreshId(w, id)
    ensures FreshId(w0, id)
  {
    assert forall n :: n in w0.containers ==> HasContainer(w, w.containers[n].id);
    assert forall n :: n in w0.networks ==> HasNetwork(w, w.networks[n]);
  }

  lemma ObtainLog(s: Space, w0: World, w: World, created: bool, want: Want, env: Env)
    requires LogOk(s, w0, created) && Keeps(w0, w) && FreshId(w, env.id)
    ensures var r := Obtain(s, w, want, env); LogOk(r.0, w0, created) && Keeps(w0, r.1)
  {
    var (s', w', _) := Obtain(s, w, want, env);
    assert Keeps(w0, w');
    if s'.terminate != s.terminate {
      var n := |s.terminate|;
      var u := s'.terminate[n];
      assert s'.terminate == s.terminate + [u];
      FreshSince(w0, w, env.id);
      assert !u.RemoveNetwork?;
      assert forall i :: 0 <= i < n ==> s'.terminate[i] == s.terminate[i];
    }
  }

  lemma {:induction false} CallsLog(s: Space, w0: World, w: World, created: bool, calls: seq<(Want, Env)>)
    requires LogOk(s, w0, created) && Keeps(w0, w) && Sane(s, w, calls)
    ensures var r := ObtainAll(s, w, calls); LogOk(r.0, w0, created) && Keeps(w0, r.1)
  {
    if calls != [] {
      var front, call := calls[..|calls| - 1], calls[|calls| - 1];
      CallsLog(s, w0, w, created, front);
      var (s', w') := ObtainAll(s, w, front);
      ObtainLog(s', w0, w', created, call.0, call.1);
    }
  }

  /** The namespace after its opening and any calls. */
  ghost predicate Reached(policy: Policy, w0: World, name: string, env: Env, calls: seq<(Want, Env)>, s: Space, w: World) {
    && Consistent(w0) && FreshId(w0, env.id)
    && Open(policy, w0, name, env).1.Some?
    && Sane(Open(policy, w0, name, env).1.value, Open(policy, w0, name, env).0, calls)
    && (s, w) == ObtainAll(Open(policy, w0, name, env).1.value, Open(policy, w0, name, env).0, calls)
  }

  lemma ReachedLog(policy: Policy, w0: World, name: string, env: Env, calls: seq<(Want, Env)>, s: Space, w: World)
    requires Reached(policy, w0, name, env, calls, s, w)
    ensures LogOk(s, w0, name !in w0.networks) && Keeps(w0, w) && s.policy == policy
  {
    OpenLog(policy, w0, name, env);
    CallsLog(Open(policy, w0, name, env).1.value, w0, Open(policy, w0, name, env).0, name !in w0.networks, calls);
    SamePolicy(Open(policy, w0, name, env).1.value, Open(policy, w0, name, env).0, calls);
  }

  lemma {:induction false} SamePolicy(s: Space, w: World, calls: seq<(Want, Env)>)
    ensures ObtainAll(s, w, calls).0.policy == s.policy && ObtainAll(s, w, calls).0.net == s.net
  {
    if calls != [] {
      SamePolicy(s, w, calls[..|calls| - 1]);
    }
  }

  /** Reusable removes no network and no container, whichever undo calls get through. */
  lemma ReusableRemovesNothing(w0: World, name: string, env: Env, calls: seq<(Want, Env)>, s: Space, w: World, oks: seq<bool>)
    requires Reached(Reusable, w0, name, env, calls, s, w) && |oks| == |s.terminate|
    ensures var w' := Released(w, s.terminate, oks);
            w'.networks == w.networks && w'.containers == w.containers && w0.attached <= w'.attached
  {
    ReachedLog(Reusable, w0, name, env, calls, s, w);
    DisconnectsOnly(w0, w, s.terminate, oks);
  }

  lemma {:induction false} DisconnectsOnly(w0: World, w: World, log: seq<Undo>, oks: seq<bool>)
    requires |log| == |oks| && w0.attached <= w.attached
    requires forall u :: u in log ==> u.Disconnect? && (u.net, u.cid) !in w0.attached
    ensures var w' := Released(w, log, oks);
            w'.networks == w.networks && w'.containers == w.containers && w0.attached <= w'.attached
    decreases |log|
  {
    if log != [] {
      var n := |log| - 1;
      var r := if oks[n] then Undone(w, log[n]) else None;
      assert log[n] in log && forall u :: u in log[..n] ==> u in log;
      DisconnectsOnly(w0, if r.Some? then r.value else w, log[..n], oks[..n]);
    }
  }

  /** Error and reuse never remove a network, a container or an attachment that was there before, whichever undo calls get through. */
  lemma PreexistingKept(policy: Policy, w0: World, name: string, env: Env, calls: seq<(Want, Env)>, s: Space, w: World, oks: seq<bool>)
    requires (policy == Error || policy == Reuse) && Reached(policy, w0, name, env, calls, s, w) && |oks| == |s.terminate|
    ensures Keeps(w0, Released(w, s.terminate, oks))
  {
    ReachedLog(policy, w0, name, env, calls, s, w);
    ReleaseKeeps(w0, w, s.terminate, oks);
  }

  lemma {:induction false} ReleaseKeeps(w0: World, w: World, log: seq<Undo>, oks: seq<bool>)
    requires |log| == |oks| && Consistent(w0) && Keeps(w0, w) && forall u :: u in log ==> Spares(w0, u)
    ensures Keeps(w0, Released(w, log, oks))
    decreases |log|
  {
    if log != [] {
      var n := |log| - 1;
      var r := if oks[n] then Undone(w, log[n]) else None;
      assert log[n] in log && forall u :: u in log[..n] ==> u in log;
      if r.Some? {
        UndoKeeps(w0, w, log[n]);
      }
      ReleaseKeeps(w0, if r.Some? then r.value else w, log[..n], oks[..n]);
    }
  }

  lemma UndoKeeps(w0: World, w: World, u: Undo)
    requires Consistent(w0) && Keeps(w0, w) && Undone(w, u).Some? && Spares(w0, u)
    ensures Keeps(w0, Undone(w, u).value)
  {
    assert forall n :: n in w0.networks ==> HasNetwork(w0, w0.networks[n]);
    assert forall n :: n in w0.containers ==> HasContainer(w0, w0.containers[n].id);
  }

  /** Every attachment to the namespace's network is covered by an undo after the first. */
  ghost predicate Covered(s: Space, w: World) {
    forall a :: a in w.attached && a.0 == s.net ==>
      exists i :: 1 <= i < |s.terminate| && (s.terminate[i] == RemoveContainer(a.1) || s.terminate[i] == Disconnect(a.0, a.1))
  }

  lemma ObtainCovered(s: Space, w: World, want: Want, env: Env)
    requires s.policy != Reusable && s.terminate != [] && Covered(s, w)
    ensures Covered(Obtain(s, w, want, env).0, Obtain(s, w, want, env).1)
  {
    var (s', w', _) := Obtain(s, w, want, env);
    forall a | a in w'.attached && a.0 == s'.net
      ensures exists i :: 1 <= i < |s'.terminate| && (s'.terminate[i] == RemoveContainer(a.1) || s'.terminate[i] == Disconnect(a.0, a.1))
    {
      if a in w.attached {
        var i :| 1 <= i < |s.terminate| && (s.terminate[i] == RemoveContainer(a.1) || s.terminate[i] == Disconnect(a.0, a.1));
        assert s'.terminate[i] == s.terminate[i];
      } else {
        var i := |s.terminate|;
        assert s'.terminate[i] == RemoveContainer(a.1) || s'.terminate[i] == Disconnect(a.0, a.1);
      }
    }
  }

  lemma {:induction false} CallsCovered(s: Space, w: World, calls: seq<(Want, Env)>)
    requires s.policy != Reusable && s.terminate != [] && Covered(s, w)
    ensures var r := ObtainAll(s, w, calls); Covered(r.0, r.1) && r.0.terminate != [] && r.0.terminate[0] == s.terminate[0]
  {
    if calls != [] {
      CallsCovered(s, w, calls[..|calls| - 1]);
      var (s', w') := ObtainAll(s, w, calls[..|calls| - 1]);
      SamePolicy(s, w, calls[..|calls| - 1]);
      ObtainCovered(s', w', calls[|calls| - 1].0, calls[|calls| - 1].1);
    }
  }

  /** Running a log from its second entry on, and then the first entry. */
  lemma {:induction false} UnwoundSplit(w: World, log: seq<Undo>)
    requires log != []
    ensures var r := Unwound(w, log[1..]);
            Unwound(w, log) == if r.None? then None else Undone(r.value, log[0])
    decreases |log|
  {
    var n := |log| - 1;
    if n == 0 {
      assert log[..0] == [] && log[1..] == [];
    } else {
      assert log[1..][..n - 1] == log[..n][1..];
      assert log[1..][n - 1] == log[n];
      var r := Undone(w, log[n]);
      if r.Some? {
        UnwoundSplit(r.value, log[..n]);
      }
    }
  }

  lemma CoveredGone(s: Space, w: World, w': World, a: (nat, nat))
    requires s.terminate != [] && Covered(s, w) && a in w.attached && a.0 == s.net
    requires forall u :: u in s.terminate[1..] ==> Gone(w', u)
    ensures a !in w'.attached
  {
    var i :| 1 <= i < |s.terminate| && (s.terminate[i] == RemoveContainer(a.1) || s.terminate[i] == Disconnect(a.0, a.1));
    assert s.terminate[1..][i - 1] == s.terminate[i];
    assert Gone(w', s.terminate[i]);
  }

  /** If the namespace created its network and the policy is not reusable, the network is removed
      last, with no container attached any more: its removal succeeds whenever the others did. */
  lemma NetworkRemovedLast(policy: Policy, w0: World, name: string, env: Env, calls: seq<(Want, Env)>, s: Space, w: World)
    requires policy != Reusable && name !in w0.networks && Reached(policy, w0, name, env, calls, s, w)
    ensures s.terminate != [] && s.terminate[0] == RemoveNetwork(s.net)
    ensures Unwound(w, s.terminate[1..]).Some? ==>
              && (forall a :: a in Unwound(w, s.terminate[1..]).value.attached ==> a.0 != s.net)
              && Unwound(w, s.terminate).Some?
  {
    var (w1, o) := Open(policy, w0, name, env);
    forall a | a in w1.attached ensures a.0 != o.value.net {
      assert HasNetwork(w0, a.0);
    }
    CallsCovered(o.value, w1, calls);
    SamePolicy(o.value, w1, calls);
    var log := s.terminate[1..];
    if Unwound(w, log).Some? {
      UnwoundRemoves(w, log);
      var w' := Unwound(w, log).value;
      forall a | a in w'.attached ensures a.0 != s.net {
        if a.0 == s.net {
          CoveredGone(s, w, w', a);
        }
      }
      ReachedLog(policy, w0, name, env, calls, s, w);
      NetworkStays(w, log, s.net);
      OpenSound(policy, w0, name, env);
      CallsNetworks(o.value, w1, calls);
      UnwoundSplit(w, s.terminate);
    }
  }

  lemma {:induction false} CallsNetworks(s: Space, w: World, calls: seq<(Want, Env)>)
    ensures ObtainAll(s, w, calls).1.networks == w.networks
  {
    if calls != [] {
      CallsNetworks(s, w, calls[..|calls| - 1]);
    }
  }

  lemma {:induction false} NetworkStays(w: World, log: seq<Undo>, net: nat)
    requires Unwound(w, log).Some? && forall i :: 0 <= i < |log| ==> !log[i].RemoveNetwork?
    ensures Unwound(w, log).value.networks == w.networks
    decreases |log|
  {
    if log != [] {
      NetworkStays(Undone(w, log[|log| - 1]).value, log[..|log| - 1], net);
    }
  }
}
