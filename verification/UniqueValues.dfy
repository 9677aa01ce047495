/** Unique values: the local generator, the beacon's value stores, and any number of clients drawing
    values at the same time. */
module UniqueValues {
  import opened Basics

  /** What the generator function returns: a value, a retryable failure or an error. */
  datatype Draw<+T> = Value(v: T) | Retryable | Fails

  datatype Answer<+T> = Got(v: T) | DrawFailed | Exhausted

  /** A draw that the loop goes past: a retryable failure, or a value that is taken. */
  predicate Retried<T(==)>(d: Draw<T>, taken: set<T>) {
    d.Retryable? || (d.Value? && d.v in taken)
  }

  /** The process-local generator: its map holds exactly the values it has returned. */
  class Generator<T(==)> {
    var seen: set<T>
    ghost var returned: seq<T>

    ghost predicate Valid()
      reads this
    {
      Distinct(returned) && seen == Elements(returned)
    }

    constructor ()
      ensures Valid() && returned == []
    {
      seen, returned := {}, [];
    }

    /** The answer is decided by the first draw that the loop does not go past: a new value is returned
        and kept, an error ends the call. */
    method Generate(retry: nat, draws: seq<Draw<T>>) returns (r: Answer<T>, used: nat)
      requires Valid() && |draws| >= retry
      modifies this
      ensures Valid() && used <= retry
      ensures forall i :: 0 <= i < used - 1 ==> Retried(draws[i], old(seen))
      ensures match r
              case Got(v) => used > 0 && draws[used - 1] == Value(v) && v !in old(seen)
              case DrawFailed => used > 0 && draws[used - 1].Fails?
              case Exhausted => used == retry && forall i :: 0 <= i < retry ==> Retried(draws[i], old(seen))
      ensures returned == old(returned) + if r.Got? then [r.v] else []
    {
      used := 0;
      while used < retry
        invariant 0 <= used <= retry && seen == old(seen) && returned == old(returned)
        invariant forall i :: 0 <= i < used ==> Retried(draws[i], seen)
      {
        var d := draws[used];
        used := used + 1;
        if d.Fails? {
          return DrawFailed, used;
        }
        if d.Value? && d.v !in seen {
          seen, returned := seen + {d.v}, returned + [d.v];
          return Got(d.v), used;
        }
      }
      r := Exhausted;
    }
  }

  // ----- the beacon's stores

  function ValuesOf(stores: map<string, set<string>>, store: string): set<string> {
    if store in stores then stores[store] else {}
  }

  /** One value store; its map is made on first use. */
  class ValueStore {
    var values: Option<map<string, bool>>

    function Stored(): set<string>
      reads this
    {
      if values.None? then {} else set v | v in values.value && values.value[v]
    }

    constructor ()
      ensures Stored() == {}
    {
      values := None;
    }

    /** Atomic under the store's mutex: a value is accepted exactly once. */
    method TryStore(v: string) returns (ok: bool)
      modifies this
      ensures ok <==> v !in old(Stored())
      ensures Stored() == old(Stored()) + {v}
    {
      if values.None? {
        values := Some(map[]);
      }
      if v in values.value && values.value[v] {
        assert Stored() + {v} == Stored();
        return false;
      }
      values := Some(values.value[v := true]);
      ok := true;
    }
  }

  /** The server: one store per name, made on first use and never shared between names. */
  class UniqueValueServer {
    var stores: map<string, ValueStore>

    ghost predicate Valid()
      reads this
    {
      forall a, b :: a in stores && b in stores && a != b ==> stores[a] != stores[b]
    }

    function Contents(): map<string, set<string>>
      reads this, stores.Values
    {
      map name | name in stores :: stores[name].Stored()
    }

    constructor ()
      ensures Valid() && Contents() == map[]
    {
      stores := map[];
    }

    /** One request: it reaches the store it names and no other. */
    method StoreUniqueValue(store: string, value: string) returns (ok: bool)
      requires Valid()
      modifies this, stores.Values
      ensures Valid() && forall v :: v in stores.Values ==> v in old(stores).Values || fresh(v)
      ensures ok <==> value !in ValuesOf(old(Contents()), store)
      ensures Contents() == Keep(old(Contents()), store, value)
    {
      ghost var was := Contents();
      if store !in stores {
        var made := new ValueStore();
        stores := stores[store := made];
      }
      assert stores[store].Stored() == ValuesOf(was, store);
      assert forall name :: name in stores && name != store ==> name in was && stores[name].Stored() == was[name];
      ok := stores[store].TryStore(value);
    }
  }

  // ----- clients

  /** One call of the global generator: its store, its retry limit, the draws it has made, and its
      answer once it has returned. */
  datatype Call<+T> = Call(store: string, retry: nat, tries: nat, answer: Option<Answer<T>>)

  datatype State<+T> = State(stores: map<string, set<string>>, calls: seq<Call<T>>)

  datatype Step<+T> =
    | Start(store: string, retry: nat)
    | Try(c: nat, draw: Draw<T>, rpcOk: bool, stored: bool) // a failed request may or may not have stored
    | GiveUp(c: nat)

  predicate Enabled<T>(s: State<T>, a: Step<T>) {
    match a
    case Start(_, _) => true
    case Try(c, _, _, _) => c < |s.calls| && s.calls[c].answer.None? && s.calls[c].tries < s.calls[c].retry
    case GiveUp(c) => c < |s.calls| && s.calls[c].answer.None? && s.calls[c].tries >= s.calls[c].retry
  }

  function Put<T>(s: State<T>, c: nat, call: Call<T>): State<T>
    requires c < |s.calls|
  {
    s.(calls := s.calls[c := call])
  }

  function Keep(stores: map<string, set<string>>, store: string, v: string): map<string, set<string>> {
    stores[store := ValuesOf(stores, store) + {v}]
  }

  function Apply<T>(render: T -> string, s: State<T>, a: Step<T>): State<T>
    requires Enabled(s, a)
  {
    match a
    case Start(store, retry) => s.(calls := s.calls + [Call(store, retry, 0, None)])
    case GiveUp(c) => Put(s, c, s.calls[c].(answer := Some(Exhausted)))
    case Try(c, draw, rpcOk, stored) =>
      var call := s.calls[c].(tries := s.calls[c].tries + 1);
      match draw
      case Retryable => Put(s, c, call)
      case Fails => Put(s, c, call.(answer := Some(DrawFailed)))
      case Value(v) =>
        if !rpcOk then
          Put(s, c, call.(answer := Some(DrawFailed))).(
          stores := if stored then Keep(s.stores, call.store, render(v)) else s.stores)
        else if render(v) in ValuesOf(s.stores, call.store) then Put(s, c, call)
        else Put(s, c, call.(answer := Some(Got(v)))).(stores := Keep(s.stores, call.store, render(v)))
  }

  predicate Answered<T>(s: State<T>, c: int) {
    0 <= c < |s.calls| && s.calls[c].answer.Some? && s.calls[c].answer.value.Got?
  }

  ghost predicate Inv<T(!new)>(render: T -> string, s: State<T>) {
    && (forall c :: 0 <= c < |s.calls| ==> s.calls[c].tries <= s.calls[c].retry)
    && (forall c :: Answered(s, c) ==> render(s.calls[c].answer.value.v) in ValuesOf(s.stores, s.calls[c].store))
    && (forall c, d :: Answered(s, c) && Answered(s, d) && c != d && s.calls[c].store == s.calls[d].store ==>
          render(s.calls[c].answer.value.v) != render(s.calls[d].answer.value.v))
  }

  lemma InvKept<T(!new)>(render: T -> string, s: State<T>, a: Step<T>)
    requires Inv(render, s) && Enabled(s, a)
    ensures Inv(render, Apply(render, s, a))
  {
    var s' := Apply(render, s, a);
    assert forall store: string :: ValuesOf(s.stores, store) <= ValuesOf(s'.stores, store);
    assert forall d :: (a.Start? || d != a.c) && 0 <= d < |s.calls| ==> s'.calls[d] == s.calls[d];
    if !a.Start? && Answered(s', a.c) {
      var store := s'.calls[a.c].store;
      assert render(s'.calls[a.c].answer.value.v) !in ValuesOf(s.stores, store);
    }
  }

  ghost predicate IsRun<T(!new)>(render: T -> string, states: seq<State<T>>, steps: seq<Step<T>>) {
    && |states| == |steps| + 1 && states[0] == State(map[], [])
    && forall i :: 0 <= i < |steps| ==> Follows(render, states, steps, i)
  }

  ghost predicate Follows<T>(render: T -> string, states: seq<State<T>>, steps: seq<Step<T>>, i: int)
    requires 0 <= i < |steps| && |states| == |steps| + 1
  {
    Enabled(states[i], steps[i]) && states[i + 1] == Apply(render, states[i], steps[i])
  }

  lemma {:induction false} RunInv<T(!new)>(render: T -> string, states: seq<State<T>>, steps: seq<Step<T>>, i: nat)
    requires IsRun(render, states, steps) && i <= |steps|
    ensures Inv(render, states[i])
  {
    if i > 0 {
      RunInv(render, states, steps, i - 1);
      assert Follows(render, states, steps, i - 1);
      InvKept(render, states[i - 1], steps[i - 1]);
    }
  }

  /** The state that a sequence of steps leads to, if each of them is possible where it is taken. */
  function Ends<T>(render: T -> string, s: State<T>, steps: seq<Step<T>>): Option<State<T>> {
    if steps == [] then Some(s)
    else
      var n := |steps| - 1;
      var before := Ends(render, s, steps[..n]);
      if before.None? || !Enabled(before.value, steps[n]) then None
      else Some(Apply(render, before.value, steps[n]))
  }

  lemma OneMore<T>(render: T -> string, s: State<T>, steps: seq<Step<T>>, a: Step<T>, s': State<T>)
    requires Ends(render, s, steps) == Some(s') && Enabled(s', a)
    ensures Ends(render, s, steps + [a]) == Some(Apply(render, s', a))
  {
    assert (steps + [a])[..|steps|] == steps;
  }

  /** A draw that the client's loop goes past: a retryable failure, or a value that the server has. */
  predicate Refused<T>(d: Draw<T>, rpc: bool, render: T -> string, taken: set<string>) {
    d.Retryable? || (d.Value? && rpc && render(d.v) in taken)
  }

  /** The loop of the global generator, alone with the server, is a run of the steps above over its
      own draws, so that whatever is proved of all runs holds of it. `rpcs[i]` tells whether request
      `i` is answered, `lost[i]` whether one that is not has been carried out all the same. */
  method GenerateGlobal<T>(server: UniqueValueServer, store: string, retry: nat, draws: seq<Draw<T>>, rpcs: seq<bool>, lost: seq<bool>, render: T -> string)
    returns (r: Answer<T>, used: nat, ghost steps: seq<Step<T>>)
    requires server.Valid() && |draws| == |rpcs| == |lost| >= retry
    modifies server, server.stores.Values
    ensures server.Valid() && used <= retry && used <= |steps|
    ensures forall i :: 0 <= i < used ==> steps[i] == Try(0, draws[i], rpcs[i], lost[i])
    ensures Ends(render, State(old(server.Contents()), [Call(store, retry, 0, None)]), steps) ==
            Some(State(server.Contents(), [Call(store, retry, used, Some(r))]))
    ensures forall i :: 0 <= i < used - 1 ==> Refused(draws[i], rpcs[i], render, ValuesOf(old(server.Contents()), store))
    ensures match r
            case Got(v) =>
              && used > 0 && draws[used - 1] == Value(v) && rpcs[used - 1] && render(v) !in ValuesOf(old(server.Contents()), store)
              && server.Contents() == Keep(old(server.Contents()), store, render(v))
            case DrawFailed =>
              && used > 0 && (draws[used - 1].Fails? || (draws[used - 1].Value? && !rpcs[used - 1]))
              && server.Contents() == if draws[used - 1].Value? && lost[used - 1]
                                      then Keep(old(server.Contents()), store, render(draws[used - 1].v)) else old(server.Contents())
            case Exhausted =>
              && used == retry && server.Contents() == old(server.Contents())
              && forall i :: 0 <= i < retry ==> Refused(draws[i], rpcs[i], render, ValuesOf(old(server.Contents()), store))
  {
    ghost var start := State(server.Contents(), [Call(store, retry, 0, None)]);
    used, steps := 0, [];
    while used < retry
      invariant used <= retry && server.Valid() && |steps| == used
      invariant forall i :: 0 <= i < used ==> steps[i] == Try(0, draws[i], rpcs[i], lost[i])
      invariant forall v :: v in server.stores.Values ==> v in old(server.stores).Values || fresh(v)
      invariant Ends(render, start, steps) == Some(State(server.Contents(), [Call(store, retry, used, None)]))
      invariant server.Contents() == start.stores
      invariant forall i :: 0 <= i < used ==> Refused(draws[i], rpcs[i], render, ValuesOf(start.stores, store))
    {
      var d, rpc := draws[used], rpcs[used];
      ghost var a, now := Try(0, d, rpc, lost[used]), State(server.Contents(), [Call(store, retry, used, None)]);
      OneMore(render, start, steps, a, now);
      TryAlone(render, now, a);
      steps := steps + [a];
      used := used + 1;
      if d.Value? && !rpc && lost[used - 1] {
        var _ := server.StoreUniqueValue(store, render(d.v));
      }
      if d.Fails? || (d.Value? && !rpc) {
        return DrawFailed, used, steps;
      }
      if d.Value? {
        var ok := server.StoreUniqueValue(store, render(d.v));
        if ok {
          return Got(d.v), used, steps;
        }
        Kept(now.stores, store, render(d.v));
      }
    }
    ghost var now := State(server.Contents(), [Call(store, retry, used, None)]);
    OneMore(render, start, steps, GiveUp(0), now);
    assert Apply(render, now, GiveUp(0)).calls == [Call(store, retry, used, Some(Exhausted))];
    r, steps := Exhausted, steps + [GiveUp(0)];
  }

  /** What one try does to a call that is alone. */
  lemma TryAlone<T>(render: T -> string, s: State<T>, a: Step<T>)
    requires |s.calls| == 1 && a.Try? && Enabled(s, a)
    ensures var call, s' := s.calls[0].(tries := s.calls[0].tries + 1), Apply(render, s, a);
            if a.draw.Retryable? then s' == State(s.stores, [call])
            else if a.draw.Fails? || !a.rpcOk then
              s' == State(if a.draw.Value? && a.stored then Keep(s.stores, call.store, render(a.draw.v)) else s.stores,
                          [call.(answer := Some(DrawFailed))])
            else if render(a.draw.v) in ValuesOf(s.stores, call.store) then s' == State(s.stores, [call])
            else s' == State(Keep(s.stores, call.store, render(a.draw.v)), [call.(answer := Some(Got(a.draw.v)))])
  {
    assert s.calls == [s.calls[0]];
  }

  lemma Kept(stores: map<string, set<string>>, store: string, v: string)
    requires v in ValuesOf(stores, store)
    ensures Keep(stores, store, v) == stores
  {
    assert ValuesOf(stores, store) + {v} == ValuesOf(stores, store);
  }

  /** Over every interleaving of every number of clients, lost answers included: two calls on one
      store never return the same value, whatever the rendering to strings maps together, and no
      call draws more often than its retry limit. */
  lemma DistributedUniqueness<T(!new)>(render: T -> string, states: seq<State<T>>, steps: seq<Step<T>>, i: nat, c: nat, d: nat)
    requires IsRun(render, states, steps) && i <= |steps| && c < |states[i].calls|
    ensures states[i].calls[c].tries <= states[i].calls[c].retry
    ensures Answered(states[i], c) && Answered(states[i], d) && c != d && states[i].calls[c].store == states[i].calls[d].store ==>
              states[i].calls[c].answer.value.v != states[i].calls[d].answer.value.v
  {
    RunInv(render, states, steps, i);
  }
}
