/** The registry side of `TimerServiceFactoryImpl` as values: which calls
    `createTimerService`, `restoreTimerService` and `suspendTimerService`
    issue against the process-wide timer-service registry and the timer
    service, what the registry map is afterwards, and that no sequence of
    these operations ever asks the registry for something it refuses.

    `S` stands for a timer service; a registry maps a timed-object id to
    the one timer service registered for it. */
module RegistryProtocol {
  import opened Wrappers

  /** One call the factory makes. `Register` takes its key from the service
      (the id of its invoker); the other two are the timer service's own
      `restoreTimers` and `suspendTimers`. */
  datatype Call<S> =
    | Register(id: string, svc: S)
    | Unregister(id: string)
    | RestoreTimers(svc: S)
    | SuspendTimers(svc: S)

  /** The registry's answer to one call: `None` where it refuses.
      `register` refuses an id that is already registered ("already
      registered"); `unregister` of an id that is not registered is treated
      as a refusal too. Timer calls leave the registry as it is. */
  function ApplyCall<S>(m: map<string, S>, c: Call<S>): Option<map<string, S>> {
    match c
    case Register(id, svc) => if id in m then None else Some(m[id := svc])
    case Unregister(id) => if id in m then Some(m - {id}) else None
    case RestoreTimers(_) => Some(m)
    case SuspendTimers(_) => Some(m)
  }

  /** The registry after a run of calls, or `None` once one is refused. */
  function Replay<S>(m: map<string, S>, cs: seq<Call<S>>): Option<map<string, S>>
    decreases |cs|
  {
    if cs == [] then Some(m)
    else match ApplyCall(m, cs[0])
      case None => None
      case Some(m1) => Replay(m1, cs[1..])
  }

  lemma {:induction false} ReplayAppend<S>(m: map<string, S>, a: seq<Call<S>>, b: seq<Call<S>>)
    ensures Replay(m, a + b) == match Replay(m, a) case None => None case Some(m1) => Replay(m1, b)
    decreases |a|
  {
    if a == [] {
      assert a + b == b;
    } else {
      assert (a + b)[0] == a[0];
      assert (a + b)[1..] == a[1..] + b;
      match ApplyCall(m, a[0])
      case None =>
      case Some(m1) =>
        ReplayAppend(m1, a[1..], b);
    }
  }

  lemma ReplayOne<S>(m: map<string, S>, c: Call<S>)
    ensures Replay(m, [c]) == ApplyCall(m, c)
  {
    assert [c][1..] == [];
  }

  // ---------------------------------------------------------------------
  // The three operations

  datatype Op<S> =
    | Create(id: string, svc: S)
    | Restore(id: string, svc: S)
    | Suspend(id: string, svc: S)

  /** What each operation is meant to do to the registry: create installs the
      new service (replacing a stale one), restore installs the service only
      when the id is free, suspend frees the id. */
  function Step<S>(m: map<string, S>, op: Op<S>): (m': map<string, S>)
    ensures m' - {op.id} == m - {op.id}
    ensures op.id in m' <==> !op.Suspend?
    ensures op.Create? ==> m'[op.id] == op.svc
    ensures op.Restore? ==> m'[op.id] == if op.id in m then m[op.id] else op.svc
  {
    match op
    case Create(id, svc) => m[id := svc]
    case Restore(id, svc) => if id in m then m else m[id := svc]
    case Suspend(id, _) => m - {id}
  }

  /** `createTimerService`: unregister a stale entry for the id, then
      register the new service. The registry ends as `Step` says, and
      `register` is reached only for a free id. */
  function CreateCalls<S>(m: map<string, S>, id: string, svc: S): (cs: seq<Call<S>>)
    ensures Replay(m, cs) == Some(Step(m, Create(id, svc)))
    ensures cs != [] && cs[|cs| - 1] == Register(id, svc)
  {
    var cs := (if id in m then [Unregister(id)] else []) + [Register(id, svc)];
    ReplayOne(m, Register(id, svc));
    ReplayOne(m - {id}, Register(id, svc));
    assert (m - {id})[id := svc] == m[id := svc];
    assert id in m ==> cs[1..] == [Register(id, svc)];
    cs
  }

  /** `restoreTimerService`: register only if the id is free, then restore
      the timers, which happens on both paths. */
  function RestoreCalls<S>(m: map<string, S>, id: string, svc: S): (cs: seq<Call<S>>)
    ensures Replay(m, cs) == Some(Step(m, Restore(id, svc)))
    ensures cs != [] && cs[|cs| - 1] == RestoreTimers(svc)
  {
    var cs := (if id in m then [] else [Register(id, svc)]) + [RestoreTimers(svc)];
    ReplayOne(m, RestoreTimers(svc));
    ReplayOne(m[id := svc], RestoreTimers(svc));
    assert id !in m ==> cs[1..] == [RestoreTimers(svc)];
    cs
  }

  /** `suspendTimerService`: suspend the timers first, then, in the `finally`
      block, unregister the id if it is registered. The calls are the same
      whether `suspendTimers` returns or throws. */
  function SuspendCalls<S>(m: map<string, S>, id: string, svc: S): (cs: seq<Call<S>>)
    ensures Replay(m, cs) == Some(Step(m, Suspend(id, svc)))
    ensures cs != [] && cs[0] == SuspendTimers(svc)
  {
    var cs := [SuspendTimers(svc)] + (if id in m then [Unregister(id)] else []);
    assert cs[1..] == (if id in m then [Unregister(id)] else []);
    ReplayOne(m, Unregister(id));
    assert id !in m ==> m - {id} == m;
    cs
  }

  function OpCalls<S>(m: map<string, S>, op: Op<S>): (cs: seq<Call<S>>)
    ensures Replay(m, cs) == Some(Step(m, op))
  {
    match op
    case Create(id, svc) => CreateCalls(m, id, svc)
    case Restore(id, svc) => RestoreCalls(m, id, svc)
    case Suspend(id, svc) => SuspendCalls(m, id, svc)
  }

  /** The registry after a run of operations. */
  function Run<S>(m: map<string, S>, ops: seq<Op<S>>): map<string, S>
    decreases |ops|
  {
    if ops == [] then m else Run(Step(m, ops[0]), ops[1..])
  }

  /** Every call a run of operations issues, in order. */
  function RunCalls<S>(m: map<string, S>, ops: seq<Op<S>>): seq<Call<S>>
    decreases |ops|
  {
    if ops == [] then [] else OpCalls(m, ops[0]) + RunCalls(Step(m, ops[0]), ops[1..])
  }

  /** Whatever the order of creates, restores and suspends, and from any
      starting registry, the registry never refuses a call the factory
      makes, and it ends as the operations' effects say. */
  lemma {:induction false} RunNeverRefused<S>(m: map<string, S>, ops: seq<Op<S>>)
    ensures Replay(m, RunCalls(m, ops)) == Some(Run(m, ops))
    decreases |ops|
  {
    if ops != [] {
      var m1 := Step(m, ops[0]);
      ReplayAppend(m, OpCalls(m, ops[0]), RunCalls(m1, ops[1..]));
      RunNeverRefused(m1, ops[1..]);
    }
  }

  /** Suspending and then restoring the same service leaves it registered,
      whatever was registered under its id before. */
  lemma SuspendThenRestore<S>(m: map<string, S>, id: string, svc: S)
    ensures Run(m, [Suspend(id, svc), Restore(id, svc)]) == m[id := svc]
  {
    var ops := [Suspend(id, svc), Restore(id, svc)];
    var m1 := Step(m, ops[0]);
    var m2 := Step(m1, ops[1]);
    assert ops[1..] == [Restore(id, svc)] && ops[1..][1..] == [];
    assert Run(m, ops) == Run(m1, ops[1..]) == Run(m2, []) == m2;
    assert m2 == m1[id := svc] == m[id := svc];
  }
}
