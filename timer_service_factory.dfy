/** `TimerServiceFactoryImpl` and the objects it changes in place: the
    process-wide timer-service registry, the timer services it creates,
    restores and suspends, and its `executor` field. The registry is handed
    to the factory instead of being reached through static methods. */
module TimerServiceFactory {
  import opened SystemProperties
  import P = RegistryProtocol

  /** Every call made on the registry and on timer services, oldest first.
      The registry and each timer service record their own calls here, so the
      order below is the order in which the factory reaches them. */
  class CallLog {
    ghost var calls: seq<P.Call<TimerService>>

    constructor ()
      ensures calls == []
    {
      calls := [];
    }
  }

  /** The scheduled thread pool a timer service runs its tasks on. Only the
      three numbers it is configured with are kept. */
  class ScheduledExecutor {
    const settings: PoolSettings

    constructor (settings: PoolSettings)
      ensures this.settings == settings
    {
      this.settings := settings;
    }
  }

  /** A `TimerServiceImpl`: the timed-object id of its invoker, the executor
      it was built with, and whether the tasks of its timers are scheduled. */
  class TimerService {
    const timedObjectId: string
    const executor: ScheduledExecutor
    const log: CallLog
    var tasksScheduled: bool

    constructor (timedObjectId: string, executor: ScheduledExecutor, log: CallLog)
      ensures this.timedObjectId == timedObjectId && this.executor == executor && this.log == log
      ensures !tasksScheduled
    {
      this.timedObjectId := timedObjectId;
      this.executor := executor;
      this.log := log;
      tasksScheduled := false;
    }

    /** `restoreTimers`: schedules again the tasks of the persisted active
        timers. */
    method RestoreTimers()
      modifies this, log
      ensures tasksScheduled
      ensures log.calls == old(log.calls) + [P.RestoreTimers(this)]
    {
      tasksScheduled := true;
      log.calls := log.calls + [P.RestoreTimers(this)];
    }

    /** `suspendTimers`: cancels the scheduled tasks while the timers stay
        active. Its body is not part of the model; `fails` says whether it
        throws, in which case the tasks are left as they were. */
    method SuspendTimers(fails: bool) returns (thrown: bool)
      modifies this, log
      ensures thrown == fails
      ensures !thrown ==> !tasksScheduled
      ensures thrown ==> tasksScheduled == old(tasksScheduled)
      ensures log.calls == old(log.calls) + [P.SuspendTimers(this)]
    {
      log.calls := log.calls + [P.SuspendTimers(this)];
      thrown := fails;
      if !fails {
        tasksScheduled := false;
      }
    }
  }

  /** The process-wide `TimerServiceRegistry`: at most one timer service per
      timed-object id, each stored under its own id. */
  class TimerServiceRegistry {
    var entries: map<string, TimerService>
    const log: CallLog

    ghost predicate Valid()
      reads this
    {
      forall id | id in entries :: entries[id].timedObjectId == id
    }

    constructor (log: CallLog)
      ensures Valid() && entries == map[] && this.log == log
    {
      entries := map[];
      this.log := log;
    }

    predicate IsRegistered(id: string)
      reads this
    {
      id in entries
    }

    /** `registerTimerService`: refuses ("already registered") an id that
        has an entry, so callers must not ask for one. */
    method Register(svc: TimerService)
      requires Valid() && !IsRegistered(svc.timedObjectId)
      modifies this, log
      ensures Valid()
      ensures entries == old(entries)[svc.timedObjectId := svc]
      ensures log.calls == old(log.calls) + [P.Register(svc.timedObjectId, svc)]
    {
      entries := entries[svc.timedObjectId := svc];
      log.calls := log.calls + [P.Register(svc.timedObjectId, svc)];
    }

    /** `unregisterTimerService`: callers only ask for an id that has an
        entry. */
    method Unregister(id: string)
      requires Valid() && IsRegistered(id)
      modifies this, log
      ensures Valid()
      ensures entries == old(entries) - {id}
      ensures log.calls == old(log.calls) + [P.Unregister(id)]
    {
      entries := entries - {id};
      log.calls := log.calls + [P.Unregister(id)];
    }
  }

  class TimerServiceFactoryImpl {
    const registry: TimerServiceRegistry
    var executor: ScheduledExecutor?

    constructor (registry: TimerServiceRegistry)
      ensures this.registry == registry && executor == null
    {
      this.registry := registry;
      executor := null;
    }

    /** `createTimerService`: builds a fresh executor from the three pool
        properties, builds the timer service on it, unregisters any stale
        service for the same timed-object id and registers the new one. */
    method CreateTimerService(timedObjectId: string, props: map<string, string>) returns (svc: TimerService)
      requires registry.Valid()
      modifies this, registry, registry.log
      ensures registry.Valid()
      ensures executor != null && fresh(executor) && executor.settings == ResolvePoolSettings(props)
      ensures fresh(svc) && svc.timedObjectId == timedObjectId && svc.executor == executor
      ensures svc.log == registry.log
      ensures !svc.tasksScheduled
      ensures registry.entries == P.Step(old(registry.entries), P.Create(timedObjectId, svc))
      ensures timedObjectId in old(registry.entries) ==>
        old(registry.entries)[timedObjectId] !in registry.entries.Values
      ensures registry.log.calls == old(registry.log.calls) + P.CreateCalls(old(registry.entries), timedObjectId, svc)
    {
      executor := new ScheduledExecutor(ResolvePoolSettings(props));
      svc := new TimerService(timedObjectId, executor, registry.log);
      ghost var before := registry.entries;
      if registry.IsRegistered(timedObjectId) {
        registry.Unregister(timedObjectId);
      }
      registry.Register(svc);
      assert (before - {timedObjectId})[timedObjectId := svc] == before[timedObjectId := svc];
      if timedObjectId in before {
        var stale := before[timedObjectId];
        forall id | id in registry.entries ensures registry.entries[id] != stale {
          assert registry.entries[id].timedObjectId == id;
        }
      }
    }

    /** `restoreTimerService`: registers the service when its id has no
        entry, then restores its timers. */
    method RestoreTimerService(svc: TimerService)
      requires registry.Valid() && svc.log == registry.log
      modifies this, registry, registry.log, svc
      ensures registry.Valid()
      ensures executor == old(executor)
      ensures svc.tasksScheduled
      ensures registry.entries == P.Step(old(registry.entries), P.Restore(svc.timedObjectId, svc))
      ensures registry.log.calls == old(registry.log.calls) + P.RestoreCalls(old(registry.entries), svc.timedObjectId, svc)
    {
      var timedObjectId := svc.timedObjectId;
      if !registry.IsRegistered(timedObjectId) {
        registry.Register(svc);
      }
      svc.RestoreTimers();
    }

    /** `suspendTimerService`: suspends the service's timers and then, in a
        `finally` block, unregisters its id if that id has an entry.
        `suspendFails` says whether `suspendTimers` throws; `thrown` says
        whether the call ends by rethrowing it. */
    method SuspendTimerService(svc: TimerService, suspendFails: bool) returns (thrown: bool)
      requires registry.Valid() && svc.log == registry.log
      modifies this, registry, registry.log, svc
      ensures registry.Valid()
      ensures executor == old(executor)
      ensures thrown == suspendFails
      ensures !thrown ==> !svc.tasksScheduled
      ensures registry.entries == P.Step(old(registry.entries), P.Suspend(svc.timedObjectId, svc))
      ensures registry.log.calls == old(registry.log.calls) + P.SuspendCalls(old(registry.entries), svc.timedObjectId, svc)
    {
      thrown := svc.SuspendTimers(suspendFails);
      // finally
      var timedObjectId := svc.timedObjectId;
      if registry.IsRegistered(timedObjectId) {
        registry.Unregister(timedObjectId);
      }
    }
  }
}
