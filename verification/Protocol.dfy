/** The container-lock protocol as a transition system: one step is one critical section of the code
    (a controller call, a semaphore operation, a gate operation) or one return of a waiting goroutine.
    A step that would block in the code is a step that is not enabled here. */
module Protocol {
  import opened Basics
  import opened AcquireQueue
  import opened LockValues

  /** Progress of the init function of one gate winner inside the control's init loop. */
  datatype InitResult = Unset | Running | Succeeded | Failed

  /** One goroutine of the lock phase, and afterwards the lock it obtained. */
  datatype KeyState =
    | AtGate                               // about to call Do on the init gate
    | Winning                              // inside Do, waiting for the exclusive lock
    | Passing                              // gate passed or not asked for, waiting for the semaphore
    | Locked(lock: Lock)                   // semaphore acquired, controller not yet notified
    | Held(lock: Lock, result: InitResult) // notified
    | Refused                              // the lock function returned an error
    | Freed                                // released

  datatype Phase =
    | Waiting                 // accepted, waiting for the proceed channel
    | Cancelled               // gave up while waiting; the entry stays queued
    | Locking                 // the errgroup is running
    | Undoing                 // some key failed: rollback
    | Initing(failed: bool)   // everything locked, the init loop is running
    | Using                   // handed to the caller
    | Releasing               // the caller's unlock, or unlock after a failed init
    | Done

  datatype Request = Request(modes: map<Key, Mode>, phase: Phase, states: map<Key, KeyState>)

  /** `succeeded`, `failed` and `leaked` record the history of each key's gate. */
  datatype State = State(
    reqs: seq<Request>,
    queue: seq<Entry>,
    sem: map<Key, int>,
    closed: set<Key>,
    succeeded: set<Key>,
    failed: set<Key>,
    leaked: set<Key>)

  datatype Step =
    | Accept(modes: map<Key, Mode>)
    | Cancel(t: nat)
    | Begin(t: nat)
    | EnterGate(t: nat, k: Key)
    | Grant(t: nat, k: Key)
    | Notify(t: nat, k: Key)
    | Refuse(t: nat, k: Key)
    | Join(t: nat)
    | StartInit(t: nat, k: Key)
    | EndInit(t: nat, k: Key, ok: bool)
    | SkipInit(t: nat, k: Key)
    | Return(t: nat)
    | Release(t: nat)
    | Unlock(t: nat, k: Key)
    | Finish(t: nat)

  const INITIAL := State([], [], map[], {}, {}, {}, {})

  function Entering(m: Mode): KeyState {
    if m.init then AtGate else Passing
  }

  function NewRequest(modes: map<Key, Mode>): Request {
    Request(modes, Waiting, map k | k in modes :: Entering(modes[k]))
  }

  function Cur(s: State, k: Key): int {
    At(s.sem, k)
  }

  predicate Is(s: State, t: nat, k: Key, p: Phase) {
    t < |s.reqs| && s.reqs[t].phase == p && k in s.reqs[t].states && k in s.reqs[t].modes
  }

  predicate Settled(ks: KeyState) {
    ks.Held? || ks.Refused?
  }

  predicate Returned(ks: KeyState) {
    ks.Held? && (ks.lock.init ==> ks.result.Succeeded? || ks.result.Failed?)
  }

  predicate Over(ks: KeyState) {
    ks.Freed? || ks.Refused?
  }

  predicate Clearing(p: Phase) {
    p.Undoing? || p.Releasing?
  }

  /** The body of the gate's Do is running for key `k`. */
  predicate GateBusy(s: State, k: Key) {
    exists o :: 0 <= o < |s.reqs| && k in s.reqs[o].states && s.reqs[o].states[k].Winning?
  }

  function Wanted(r: Request, k: Key): Lock
    requires k in r.modes && k in r.states
  {
    NewLock(r.modes[k], r.states[k].Winning?)
  }

  predicate Enabled(s: State, a: Step) {
    match a
    case Accept(_) => true
    case Cancel(t) => t < |s.reqs| && s.reqs[t].phase == Waiting
    case Begin(t) => t < |s.reqs| && s.reqs[t].phase == Waiting && Started(s.queue, t)
    case EnterGate(t, k) => Is(s, t, k, Locking) && s.reqs[t].states[k].AtGate? && !GateBusy(s, k)
    case Grant(t, k) =>
      && Is(s, t, k, Locking) && (s.reqs[t].states[k].Winning? || s.reqs[t].states[k].Passing?)
      && MAX - Cur(s, k) >= Weight(Wanted(s.reqs[t], k))
    case Notify(t, k) => Is(s, t, k, Locking) && s.reqs[t].states[k].Locked?
    case Refuse(t, k) => Is(s, t, k, Locking) && (s.reqs[t].states[k].Winning? || s.reqs[t].states[k].Passing?)
    case Join(t) =>
      t < |s.reqs| && s.reqs[t].phase == Locking &&
      forall k :: k in s.reqs[t].states ==> Settled(s.reqs[t].states[k])
    case StartInit(t, k) =>
      && Is(s, t, k, Initing(false))
      && s.reqs[t].states[k].Held? && s.reqs[t].states[k].lock.init && s.reqs[t].states[k].result.Unset?
      && forall j :: j in s.reqs[t].states && s.reqs[t].states[j].Held? ==> !s.reqs[t].states[j].result.Running?
    case EndInit(t, k, _) =>
      Is(s, t, k, Initing(false)) && s.reqs[t].states[k].Held? && s.reqs[t].states[k].result.Running?
    case SkipInit(t, k) =>
      && Is(s, t, k, Initing(true))
      && s.reqs[t].states[k].Held? && s.reqs[t].states[k].lock.init && s.reqs[t].states[k].result.Unset?
    case Return(t) =>
      t < |s.reqs| && s.reqs[t].phase.Initing? &&
      forall k :: k in s.reqs[t].states ==> Returned(s.reqs[t].states[k])
    case Release(t) => t < |s.reqs| && s.reqs[t].phase == Using
    case Unlock(t, k) =>
      && t < |s.reqs| && Clearing(s.reqs[t].phase)
      && k in s.reqs[t].states && s.reqs[t].states[k].Held?
    case Finish(t) =>
      t < |s.reqs| && Clearing(s.reqs[t].phase) &&
      forall k :: k in s.reqs[t].states ==> Over(s.reqs[t].states[k])
  }

  function PutPhase(s: State, t: nat, p: Phase): State
    requires t < |s.reqs|
  {
    s.(reqs := s.reqs[t := s.reqs[t].(phase := p)])
  }

  function PutKey(s: State, t: nat, k: Key, ks: KeyState): State
    requires t < |s.reqs|
  {
    s.(reqs := s.reqs[t := s.reqs[t].(states := s.reqs[t].states[k := ks])])
  }

  ghost function Apply(s: State, a: Step): State
    requires Enabled(s, a)
  {
    match a
    case Accept(modes) =>
      s.(reqs := s.reqs + [NewRequest(modes)], queue := Accepted(s.queue, |s.reqs|, modes.Keys))
    case Cancel(t) => PutPhase(s, t, Cancelled)
    case Begin(t) => PutPhase(s, t, Locking)
    case EnterGate(t, k) =>
      if k in s.closed then PutKey(s, t, k, Passing)
      else PutKey(s, t, k, Winning).(closed := s.closed + {k})
    case Grant(t, k) =>
      var l := Wanted(s.reqs[t], k);
      PutKey(s, t, k, Locked(l)).(sem := s.sem[k := Cur(s, k) + Weight(l)])
    case Notify(t, k) =>
      PutKey(s, t, k, Held(s.reqs[t].states[k].lock, Unset)).(queue := KeyLocked(s.queue, t, k))
    case Refuse(t, k) =>
      if s.reqs[t].states[k].Winning? then PutKey(s, t, k, Refused).(closed := s.closed - {k})
      else PutKey(s, t, k, Refused)
    case Join(t) =>
      if exists k :: k in s.reqs[t].states && s.reqs[t].states[k].Refused?
      then PutPhase(s, t, Undoing).(queue := Removed(s.queue, t))
      else PutPhase(s, t, Initing(false))
    case StartInit(t, k) => PutKey(s, t, k, Held(s.reqs[t].states[k].lock, Running))
    case EndInit(t, k, ok) =>
      var l := s.reqs[t].states[k].lock;
      var l' := WithResult(l, ok);
      if ok then
        PutKey(s, t, k, Held(l', Succeeded)).(
        sem := s.sem[k := Cur(s, k) - (Weight(l) - Weight(l'))],
        succeeded := s.succeeded + {k})
      else
        PutPhase(PutKey(s, t, k, Held(l', Failed)), t, Initing(true)).(
        closed := s.closed - {k}, failed := s.failed + {k})
    case SkipInit(t, k) =>
      PutKey(s, t, k, Held(WithResult(s.reqs[t].states[k].lock, false), Failed)).(
      closed := s.closed - {k}, failed := s.failed + {k})
    case Return(t) => PutPhase(s, t, if s.reqs[t].phase.failed then Releasing else Using)
    case Release(t) => PutPhase(s, t, Releasing)
    case Unlock(t, k) =>
      var l := s.reqs[t].states[k].lock;
      PutKey(s, t, k, Freed).(
      sem := s.sem[k := Cur(s, k) - Weight(l)],
      leaked := if l.init && s.reqs[t].states[k].result.Unset? then s.leaked + {k} else s.leaked)
    case Finish(t) => PutPhase(s, t, Done)
  }

  /** A run: its states and, between two neighbours, the step taken. */
  datatype Run = Run(states: seq<State>, steps: seq<Step>)

  ghost predicate StepAt(r: Run, i: nat)
    requires i < |r.steps| && i + 1 < |r.states|
  {
    Enabled(r.states[i], r.steps[i]) && r.states[i + 1] == Apply(r.states[i], r.steps[i])
  }

  ghost predicate IsRun(r: Run) {
    && |r.states| == |r.steps| + 1
    && (forall i {:trigger r.steps[i]} :: 0 <= i < |r.steps| ==> Enabled(r.states[i], r.steps[i]))
    && (forall i :: 0 <= i < |r.steps| ==> StepAt(r, i))
  }

  /** A run of the protocol from its initial state. */
  ghost predicate FromStart(r: Run) {
    IsRun(r) && r.states[0] == INITIAL
  }

  ghost function Extend(r: Run, a: Step): (r': Run)
    requires IsRun(r) && Enabled(r.states[|r.steps|], a)
    ensures IsRun(r') && r'.states[0] == r.states[0]
    ensures r'.steps == r.steps + [a] && r'.states[|r'.steps|] == Apply(r.states[|r.steps|], a)
  {
    var r' := Run(r.states + [Apply(r.states[|r.steps|], a)], r.steps + [a]);
    assert forall i :: 0 <= i < |r.steps| ==> StepAt(r, i) ==> StepAt(r', i);
    assert StepAt(r', |r.steps|);
    r'
  }
}
