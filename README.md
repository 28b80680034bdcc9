# TimerServiceFactoryImpl: registry lifecycle and property resolution

This project models the core of `TimerServiceFactoryImpl`, the factory of
the MK2 EJB timer service. The factory does two separate things:

- **Registry lifecycle.** `createTimerService`, `restoreTimerService` and
  `suspendTimerService` keep the process-wide `TimerServiceRegistry` up to
  date. The registry maps a timed-object id to the one timer service
  registered for it. `createTimerService` removes a stale entry before it
  registers the new service, because the registry refuses to register an id
  twice. `restoreTimerService` registers the service only when its id is
  free, then restores the timers. `suspendTimerService` suspends the timers,
  then unregisters the id in a `finally` block.
- **Property resolution.** `getSystemProperty(name, default)` reads a JVM
  system property as a Java `int`. It returns the default when the property
  is absent, blank or not a valid `int`, and it never throws.
  `createTimerService` uses it for the core pool size (default 20), the
  maximum pool size (default 50) and the keep-alive time in seconds
  (default 300).

Files:

- `java_lang.dfy` (module `JavaLang`) holds the JDK behaviour the resolver
  relies on: `String.trim`, `Integer.valueOf` / `Integer.parseInt` with
  radix 10, and `Integer.toString`, which is the inverse used to state the
  round trip. `ParseInt` follows the JDK's digit loop. That loop stops as
  soon as the partial magnitude passes the limit for the sign.
  `AccumulateCorrect` proves that this early exit accepts exactly the
  strings in decimal notation whose value fits in an `int`. That set is
  defined independently by `IsJavaInt` and `DecimalValue`.
- `system_properties.dfy` (module `SystemProperties`) holds
  `getSystemProperty` and the three pool settings. The system properties
  are passed in as a table (`map<string, string>`).
- `registry_protocol.dfy` (module `RegistryProtocol`) describes the
  registry side with values only. `Step` gives the intended effect of each
  operation on the registry map. `CreateCalls`, `RestoreCalls` and
  `SuspendCalls` list the calls each operation makes, in order. `Replay`
  runs those calls against a registry that refuses a duplicate `register`
  and an `unregister` of a missing id. `RunNeverRefused` proves that no
  sequence of the three operations is ever refused by the registry.
- `timer_service_factory.dfy` (module `TimerServiceFactory`) has the
  classes: `TimerServiceRegistry` (a `map` field),
  `TimerService` (`TimerServiceImpl`: its id, its executor, and whether its
  tasks are scheduled), `ScheduledExecutor` (only the three numbers it is
  configured with) and `TimerServiceFactoryImpl` itself. The factory's
  methods are proved against `RegistryProtocol`. A ghost `CallLog`, shared
  by the registry and its timer services, records each call where it is
  received: `Register`, `Unregister`, `RestoreTimers` and `SuspendTimers`
  each append their own call. Each factory method ends with
  `registry.log.calls == old(registry.log.calls) + <Op>Calls(old(registry.entries), …)`
  and `registry.entries == Step(old(registry.entries), …)`, so the order of
  the calls in its body is what is checked. The registry's `Register` and
  `Unregister` require a free id and a present id. So the verifier checks
  every call the factory makes.

Two consequences of the code that the model states:

- `suspendTimerService` unregisters *by id*. If a newer service has replaced
  a stale one under the same id, suspending the stale one removes the newer
  registration (`Step`, case `Suspend`).
- A property with white space around a number (for example `" 7 "`) gives
  the default. The blank check trims the value, but the value is parsed
  untrimmed (`PaddedValueFallsBack`).

## Model

| member | source | states |
|---|---|---|
| `JavaLang.Trim` | timerservice-mk2/src/main/java/org/jboss/ejb3/timerservice/mk2/TimerServiceFactoryImpl.java:201 | `prop.trim()` is empty exactly when every character is at most U+0020; otherwise it starts and ends with a character above U+0020 |
| `JavaLang.AccumulateCorrect` | timerservice-mk2/src/main/java/org/jboss/ejb3/timerservice/mk2/TimerServiceFactoryImpl.java:202 | the digit loop of `Integer.parseInt`, with its early exit on overflow, succeeds exactly when the rest is all digits and the full value is within the limit, and then yields that value |
| `JavaLang.ParseInt` | timerservice-mk2/src/main/java/org/jboss/ejb3/timerservice/mk2/TimerServiceFactoryImpl.java:202 | `Integer.valueOf(prop)` returns a value exactly for an optional sign followed by one or more digits whose value is in [-2^31, 2^31-1], and that value is the decimal value of the string; every other string throws `NumberFormatException` (`None`) |
| `JavaLang.ParseIntToString` | timerservice-mk2/src/main/java/org/jboss/ejb3/timerservice/mk2/TimerServiceFactoryImpl.java:202 | `Integer.valueOf(Integer.toString(v))` is `v` for every `int` |
| `SystemProperties.Resolve` | timerservice-mk2/src/main/java/org/jboss/ejb3/timerservice/mk2/TimerServiceFactoryImpl.java:197-214 | the branch taken: info and the parsed value exactly for a valid `int`; a "not set" warning exactly when the property is null or blank; otherwise the caught parse failure |
| `SystemProperties.GetSystemProperty` | timerservice-mk2/src/main/java/org/jboss/ejb3/timerservice/mk2/TimerServiceFactoryImpl.java:194-216 | the default when the property is absent, blank or not a valid `int`; the property's decimal value when it is a valid `int`; defined on every input (never throws) |
| `SystemProperties.PaddedValueFallsBack` | timerservice-mk2/src/main/java/org/jboss/ejb3/timerservice/mk2/TimerServiceFactoryImpl.java:201-215 | a value that starts or ends with white space gives the default, because the untrimmed value is parsed |
| `SystemProperties.CanonicalValueReadBack` | timerservice-mk2/src/main/java/org/jboss/ejb3/timerservice/mk2/TimerServiceFactoryImpl.java:200-206 | a property holding `Integer.toString(v)` is read as `v`, whatever the default |
| `SystemProperties.SampleValues` | timerservice-mk2/src/main/java/org/jboss/ejb3/timerservice/mk2/TimerServiceFactoryImpl.java:200-215 | with default 20: `"7"` gives 7, `"-7"` gives -7, and `"abc"`, `" 7 "` and a lone `"+"` give 20 |
| `SystemProperties.SampleBounds` | timerservice-mk2/src/main/java/org/jboss/ejb3/timerservice/mk2/TimerServiceFactoryImpl.java:202 | `"2147483648"` is out of range and gives the default; `"-2147483648"` gives the smallest `int` |
| `SystemProperties.ResolvePoolSettings` | timerservice-mk2/src/main/java/org/jboss/ejb3/timerservice/mk2/TimerServiceFactoryImpl.java:77-79 | the core size, maximum size and keep-alive time are each the `int` value of their own property when it holds one, and 20, 50 and 300 otherwise |
| `SystemProperties.DefaultPoolSettings` | timerservice-mk2/src/main/java/org/jboss/ejb3/timerservice/mk2/TimerServiceFactoryImpl.java:77-79 | with none of the three properties set, the pool settings are core 20, max 50, keep-alive 300 s |
| `SystemProperties.PoolSettingsIndependent` | timerservice-mk2/src/main/java/org/jboss/ejb3/timerservice/mk2/TimerServiceFactoryImpl.java:77-79 | each of the three settings depends on its own property and on no other |
| `SystemProperties.CoreMayExceedMax` | timerservice-mk2/src/main/java/org/jboss/ejb3/timerservice/mk2/TimerServiceFactoryImpl.java:77-79 | some property table gives a core size above the maximum size: the resolver itself puts no relation between them (the JDK call at line 82, which is left out, is what rejects it) |
| `RegistryProtocol.Step` | timerservice-mk2/src/main/java/org/jboss/ejb3/timerservice/mk2/TimerServiceFactoryImpl.java:95-190 | each operation changes only its own id; create maps the id to the new service; restore leaves an existing entry (even another instance) and otherwise maps the id to the service; suspend leaves the id unregistered |
| `RegistryProtocol.CreateCalls` | timerservice-mk2/src/main/java/org/jboss/ejb3/timerservice/mk2/TimerServiceFactoryImpl.java:95-101 | unregister-if-present then register: the registry accepts every call, ends as create's effect says, and the last call registers the new service |
| `RegistryProtocol.RestoreCalls` | timerservice-mk2/src/main/java/org/jboss/ejb3/timerservice/mk2/TimerServiceFactoryImpl.java:123-130 | register-if-absent then `restoreTimers`: the registry accepts every call, ends as restore's effect says, and `restoreTimers` is called on both paths |
| `RegistryProtocol.SuspendCalls` | timerservice-mk2/src/main/java/org/jboss/ejb3/timerservice/mk2/TimerServiceFactoryImpl.java:177-191 | `suspendTimers` first, then unregister-if-present: the registry accepts every call (no unregister of a missing id) and ends with the id unregistered |
| `RegistryProtocol.RunNeverRefused` | timerservice-mk2/src/main/java/org/jboss/ejb3/timerservice/mk2/TimerServiceFactoryImpl.java:89-101 | for every starting registry and every sequence of creates, restores and suspends, no call is refused ("already registered" never happens) and the registry ends as the operations' effects say |
| `RegistryProtocol.SuspendThenRestore` | timerservice-mk2/src/main/java/org/jboss/ejb3/timerservice/mk2/TimerServiceFactoryImpl.java:121-126 | suspending and then restoring a service leaves exactly that service registered under its id |
| `TimerServiceFactory.TimerServiceRegistry.Register` | timerservice-mk2/src/main/java/org/jboss/ejb3/timerservice/mk2/TimerServiceFactoryImpl.java:89-94 | callable only for an id with no entry; adds the service under its own id, keeps every entry stored under its own id, and records the `register` call |
| `TimerServiceFactory.TimerServiceRegistry.Unregister` | timerservice-mk2/src/main/java/org/jboss/ejb3/timerservice/mk2/TimerServiceFactoryImpl.java:97 | callable only for a registered id; removes exactly that entry and records the `unregister` call |
| `TimerServiceFactory.TimerService.RestoreTimers` | timerservice-mk2/src/main/java/org/jboss/ejb3/timerservice/mk2/TimerServiceFactoryImpl.java:129-130 | afterwards the service's timer tasks are scheduled; records the `restoreTimers` call |
| `TimerServiceFactory.TimerService.SuspendTimers` | timerservice-mk2/src/main/java/org/jboss/ejb3/timerservice/mk2/TimerServiceFactoryImpl.java:180-181 | throws exactly when the given outcome says so; on a normal return no task is scheduled; records the `suspendTimers` call either way |
| `TimerServiceFactory.TimerServiceFactoryImpl.CreateTimerService` | timerservice-mk2/src/main/java/org/jboss/ejb3/timerservice/mk2/TimerServiceFactoryImpl.java:75-103 | a fresh executor configured from the three properties replaces the `executor` field; a fresh service on it is returned; the registry maps the id to it and no other entry changes; a stale service for the id is no longer reachable from the registry; the calls the registry receives, in the order received, are `CreateCalls` |
| `TimerServiceFactory.TimerServiceFactoryImpl.RestoreTimerService` | timerservice-mk2/src/main/java/org/jboss/ejb3/timerservice/mk2/TimerServiceFactoryImpl.java:117-132 | the registry ends as restore's effect says; the service's timers are restored in every case; the calls the registry and the service receive, in the order received, are `RestoreCalls` (register before `restoreTimers`) |
| `TimerServiceFactory.TimerServiceFactoryImpl.SuspendTimerService` | timerservice-mk2/src/main/java/org/jboss/ejb3/timerservice/mk2/TimerServiceFactoryImpl.java:174-192 | whether `suspendTimers` returns or throws, the id ends unregistered and no other entry changes; the exception is passed on exactly when `suspendTimers` threw; the calls the service and the registry receive, in the order received, are `SuspendCalls` (`suspendTimers` before unregister) |

## Left out

- Thread-pool construction (`Executors.newScheduledThreadPool`, `setMaximumPoolSize`, `setKeepAliveTime`): only the three resolved numbers are kept. The JDK's own argument checks are not modelled.
- `TimerServiceFactory.TimerServiceFactoryImpl.CreateTimerService`: never fails in the model. In the program, `setMaximumPoolSize` at line 82 throws `IllegalArgumentException` when the maximum is below the core size (the JDK also rejects a negative core size, a non-positive maximum and a negative keep-alive). It throws after `executor` was reassigned at line 81, and then no service is built or registered.
- The `EntityManagerFactory` and `TransactionManager` setters and fields: injection plumbing that nothing modelled reads.
- The bodies of `TimerServiceImpl.restoreTimers` and `suspendTimers`, and of `TimerServiceRegistry`: these classes are not part of this model. The timer calls are reduced to whether the service's tasks are scheduled.
- `TimerServiceFactory.TimerService.constructor`: a newly built service is taken to have no scheduled tasks until `restoreTimers` runs. The `TimerServiceImpl` constructor is not part of this model.
- `TimerServiceFactory.TimerService.SuspendTimers`: when it throws, the model leaves the tasks as they were. The real method may have cancelled some of them.
- `RegistryProtocol.ApplyCall`: an `unregister` of an id that is not registered is treated as refused. The registry's real behaviour there is not visible.
- Logging (the info, warn and debug messages): only which branch logs is kept (`Resolve`).
- `SystemProperties.GetSystemProperty`: the system properties are a plain table. A `SecurityException` from `System.getProperty` is not modelled. The code would catch it and return the default.
- `JavaLang.ParseInt`: only the ASCII digits `0`-`9` are digits. `Character.digit` also accepts other Unicode decimal digits, such as full-width digits. A leading `+` is accepted, as in Java 7 and later. Java 6 and earlier reject it, so such a value would give the default there.
- The downcasts to `TimerServiceImpl`: the model's factory takes `TimerService` directly.
- Thread safety of the registry and concurrent calls: each operation is modelled as one atomic step.
- Static access to the registry: the registry is a field of the factory, and every factory method shares it.
