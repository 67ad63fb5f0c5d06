# Seam session-bean interceptor and Spring booking rules, in Dafny

This project models two pieces of the JBoss Seam repository.

**`SeamInterceptor`** is the interceptor the EJB container puts in front of every Seam
session bean. When the container builds the interceptor itself, it first works out on
post-construct which Seam component the bean is. It looks in this order:

1. the component the factory left in the thread-local;
2. the component registered under the class's `@Name`;
3. otherwise, the bean is not a Seam component.

It then routes every lifecycle callback and business call in one of three ways:

- a plain `proceed()` for a bean that is not a Seam component;
- for a Seam component called inside Seam contexts, a call handled in those contexts;
- for a Seam component called with neither the event nor the application context
  active, a call bracketed by `Lifecycle.beginCall()`/`endCall()`.

Inside contexts, the Seam interceptor chain runs only when the component is present and
its interception type is active. Lifecycle callbacks pass unchecked exceptions on and wrap
checked ones in a `RuntimeException` that keeps the cause. `aroundInvoke` passes everything
on unwrapped.

- `interception.dfy` (module `Interception`) states this behaviour as functions over values:
  - the interceptor's fields;
  - which contexts are active;
  - the container's invocation;
  - the trace of actions a callback performs (`Initialize`, `BeginCall`, `EndCall`,
    `Proceed`, `Chain`).

  It also proves lemmas about single calls and about any sequence of container callbacks.
- `seam_interceptor.dfy` (module `Ejb`) is the interceptor as a class whose methods update
  its fields, next to a `SeamContexts` object whose flags `BeginCall`/`EndCall` toggle. Each
  method is proved to produce exactly the new state, trace and contexts of its
  specification function.

The collaborators whose code is not part of this model are represented as follows:

- `Component`, `Seam.componentForName`, `Contexts`, `Lifecycle` and `SeamInvocationContext`:
  - a component record with a name, an interception-active flag and its interceptor lists;
  - a registry map from name to component;
  - two context flags;
  - the outcomes that `invocation.proceed()`, the Seam chain and `component.initialize`
    produce, carried by the invocation.
- The thread-local `COMPONENT` is an explicit `Option<Component>` parameter.

**`BookingService`** (Spring example) holds the booking date rules. A check-in earlier than
one day before now is rejected with "Check in date must be a future date". Otherwise, a
check-out not after the check-in is rejected with "Check out date must be later than check
in date". `bookHotel` validates before it persists. `cancelBooking` and `findHotelById`
refuse a null id. `booking_service.dfy` (module `SpringBooking`) models:

- the validator as a function, with times as milliseconds and `now` as a parameter;
- the service as a class over two maps: hotels and bookings by id.

`wrappers.dfy` holds `Option` (Java's null), `Outcome` and `Result` (Java's exceptions).

## Model

| member | source | states |
|---|---|---|
| `Interception.Unresolved` | src/main/org/jboss/seam/ejb/SeamInterceptor.java:55-58 | A container-built interceptor starts consistent, not yet a Seam component and holding no component |
| `Interception.Init` | src/main/org/jboss/seam/ejb/SeamInterceptor.java:71-77 | After init(c): isSeamComponent holds, component == c, componentName is c's name, userInterceptors are c's user interceptors for this interceptor type. A null c fails with NullPointerException after only the flag and component have changed. Keeps the fields consistent |
| `Interception.InitSessionBean` | src/main/org/jboss/seam/ejb/SeamInterceptor.java:112-133 | Resolution precedence: the thread-local component wins; else the component registered under @Name (NullPointerException when none is); else the bean is not a Seam component and nothing else changes. The chosen component is recorded exactly as init records it: name, user interceptors and component. On success, isSeamComponent holds exactly when a component is held |
| `Interception.IsProcessInterceptors` | src/main/org/jboss/seam/ejb/SeamInterceptor.java:224-227 | Interceptors are processed only with a component present, and then exactly when its interception is active |
| `Interception.InvokeInContexts` | src/main/org/jboss/seam/ejb/SeamInterceptor.java:205-222 | Exactly one call is made, in the current contexts. It runs the Seam chain (event, user interceptors, component interceptors) and returns the chain's completion exactly when the component is present and interception is active. Otherwise it returns proceed()'s completion |
| `Interception.Invoke` | src/main/org/jboss/seam/ejb/SeamInterceptor.java:176-203 | A non-Seam bean gets exactly proceed(), with no context handling and no interceptors. beginCall and endCall occur exactly when a Seam component is called with neither context active; beginCall comes first and endCall last. Between them the call is handled in the temporary contexts exactly as inside existing contexts, so the chain runs when interception applies. A Seam component always runs with a context active. Contexts afterwards equal contexts before. The completion is the invocation's own, unwrapped |
| `Interception.InvokeAndHandle` | src/main/org/jboss/seam/ejb/SeamInterceptor.java:154-168 | A lifecycle callback fails exactly when invoke throws. Its failure is always unchecked. An unchecked exception from invoke is rethrown unchanged; a checked one is wrapped in a RuntimeException with the message "exception in EJB lifecycle callback" and the original as cause. State and contexts are unchanged |
| `Interception.Rethrow` | src/main/org/jboss/seam/ejb/SeamInterceptor.java:99-106 | An unchecked exception is rethrown unchanged. A checked one is wrapped in a RuntimeException with the given message and the original as cause. The result is never checked |
| `Interception.PostConstructCallback` | src/main/org/jboss/seam/ejb/SeamInterceptor.java:79-110 | Resolution runs only when no component is held; an interceptor already holding one keeps its state. Failures are always unchecked. For a Seam component, initialize comes before the callback. A failed initialize is always reported: the trace is just Initialize and the failure is the translated exception ("exception initializing EJB component" around a checked one). A Seam component with no component held fails with NullPointerException before any action. A non-Seam bean is never initialized. Once resolution and, for a Seam component, initialize pass, the POST_CONSTRUCT callback is handed on: its trace follows Initialize, and its completion is that of invokeAndHandle. A failed resolution stops with its exception and no actions. Contexts are restored and the fields stay consistent |
| `Interception.PostActivateCallback` | src/main/org/jboss/seam/ejb/SeamInterceptor.java:147-152 | The component is fetched again by componentName only for a Seam component; otherwise the state is untouched. The POST_ACTIVATE callback is then handed on with the new state: its trace and completion are those of invokeAndHandle. Failures are unchecked, contexts are restored, and the fields stay consistent (and correctly named, given a consistent registry) |
| `Interception.InvokeBalanced` | src/main/org/jboss/seam/ejb/SeamInterceptor.java:188-202 | In one invocation, beginCall and endCall occur equally often: once for a Seam component outside all contexts, never otherwise |
| `Interception.InvokeTraceIgnoresCompletion` | src/main/org/jboss/seam/ejb/SeamInterceptor.java:193-201 | The actions of an invocation, endCall included, are the same whether the call returns or throws |
| `Interception.DispatchBalanced` | src/main/org/jboss/seam/ejb/SeamInterceptor.java:79-174 | Every container entry point (postConstruct, preDestroy, prePassivate, postActivate, aroundInvoke) restores the contexts and balances beginCall with endCall |
| `Interception.DispatchConsistent` | src/main/org/jboss/seam/ejb/SeamInterceptor.java:71-152 | Every container entry point keeps the interceptor's fields consistent |
| `Interception.ReplayBalanced` | src/main/org/jboss/seam/ejb/SeamInterceptor.java:79-203 | Over any sequence of container callbacks: the contexts end as they began, beginCall and endCall occur equally often, and consistent fields stay consistent |
| `Interception.PostConstructResolvesOnce` | src/main/org/jboss/seam/ejb/SeamInterceptor.java:87-90 | After a successful postConstruct of a Seam component, a further postConstruct never re-resolves, whatever the thread-local and annotation say |
| `Ejb.SeamContexts.BeginCall` | src/main/org/jboss/seam/ejb/SeamInterceptor.java:193 | Temporary event and application contexts are active |
| `Ejb.SeamContexts.EndCall` | src/main/org/jboss/seam/ejb/SeamInterceptor.java:198-201 | Both contexts are inactive again |
| `Ejb.SeamInterceptor.constructor` | src/main/org/jboss/seam/ejb/SeamInterceptor.java:55-58 | The container-built interceptor has type SERVER and is unresolved |
| `Ejb.SeamInterceptor.ForComponent` | src/main/org/jboss/seam/ejb/SeamInterceptor.java:65-69 | The Seam-built interceptor is a Seam component holding the given component, its name and its user interceptors for the given type |
| `Ejb.SeamInterceptor.Init` | src/main/org/jboss/seam/ejb/SeamInterceptor.java:71-77 | The fields change exactly as Interception.Init says |
| `Ejb.SeamInterceptor.InitSessionBean` | src/main/org/jboss/seam/ejb/SeamInterceptor.java:112-133 | The fields change exactly as Interception.InitSessionBean says |
| `Ejb.SeamInterceptor.PostConstruct` | src/main/org/jboss/seam/ejb/SeamInterceptor.java:79-110 | Fields, completion, trace and contexts are exactly those of Interception.PostConstructCallback. An interceptor that held a component keeps its fields |
| `Ejb.SeamInterceptor.PreDestroy` | src/main/org/jboss/seam/ejb/SeamInterceptor.java:135-139 | Handled as a PRE_DESTROY lifecycle callback (Interception.InvokeAndHandle) |
| `Ejb.SeamInterceptor.PrePassivate` | src/main/org/jboss/seam/ejb/SeamInterceptor.java:141-145 | Handled as a PRE_PASSIVATE lifecycle callback (Interception.InvokeAndHandle) |
| `Ejb.SeamInterceptor.PostActivate` | src/main/org/jboss/seam/ejb/SeamInterceptor.java:147-152 | Fields, completion, trace and contexts are exactly those of Interception.PostActivateCallback |
| `Ejb.SeamInterceptor.InvokeAndHandle` | src/main/org/jboss/seam/ejb/SeamInterceptor.java:154-168 | Completion, trace and contexts are exactly those of Interception.InvokeAndHandle |
| `Ejb.SeamInterceptor.AroundInvoke` | src/main/org/jboss/seam/ejb/SeamInterceptor.java:170-174 | The business call's result is the invocation's own completion, never wrapped; trace and contexts are those of Interception.Invoke |
| `Ejb.SeamInterceptor.Invoke` | src/main/org/jboss/seam/ejb/SeamInterceptor.java:176-203 | Result, trace and contexts are exactly those of Interception.Invoke; the context flags are restored |
| `Ejb.SeamInterceptor.InvokeInContexts` | src/main/org/jboss/seam/ejb/SeamInterceptor.java:205-222 | Result and trace are exactly those of Interception.InvokeInContexts |
| `SpringBooking.ValidateBooking` | examples/spring/src/org/jboss/seam/example/spring/BookingService.java:59-70 | Passes exactly when check-in is no earlier than now minus a day and before check-out. Fails with the future-date message exactly when check-in is too early, whatever the check-out. Fails with the check-out message exactly when check-in is in time but not before check-out |
| `SpringBooking.BookingService.Persist` | examples/spring/src/org/jboss/seam/example/spring/BookingService.java:80 | The booking is stored under a fresh id and nothing else changes |
| `SpringBooking.BookingService.BookHotel` | examples/spring/src/org/jboss/seam/example/spring/BookingService.java:74-82 | Fails exactly when the booking is not acceptable, with validateBooking's error and the store untouched. Otherwise the booking is added under a fresh id and no other booking changes |
| `SpringBooking.BookingService.CancelBooking` | examples/spring/src/org/jboss/seam/example/spring/BookingService.java:47-57 | A null id fails with IllegalArgumentException and the store is unchanged. Otherwise exactly that id is removed, so an absent id is a no-op. Hotels and the id generator are unchanged |
| `SpringBooking.BookingService.FindHotelById` | examples/spring/src/org/jboss/seam/example/spring/BookingService.java:94-101 | A null id fails with IllegalArgumentException. Otherwise the result is the hotel stored under that id, or null when there is none |

## Left out

- Trace logging (`log.isTraceEnabled`/`log.trace`) is not modelled, so the model is the interceptor with trace logging off. With it on, the not-intercepted branch of invokeInContexts calls `component.getName()` and throws NullPointerException when no component is held, which happens once postActivate finds no registry entry for a Seam component's name. Neither is serialization: the `transient` component field and `Serializable` passivation.
- `getComponent` is modelled as the accessor `Ejb.SeamInterceptor.GetComponent`, without a contract.
- The `ThreadLocal` is not modelled. The component it holds is a parameter of post-construct, so behaviour across threads is out of scope.
- `Component`, `Contexts`, `Lifecycle`, `Seam` and `SeamInvocationContext` are not part of this model. How they behave is abstracted:
  - `component.initialize(bean)`, `invocation.proceed()` and the Seam interceptor chain each end in a given way, carried by the bean and the invocation;
  - the chain is recorded as a `Chain` action naming the event and both interceptor lists.
- `Seam.componentForName` is a registry lookup that yields null for an unknown name (and for a null name). Any failure of its own is not modelled.
- `Lifecycle.beginCall`/`endCall` are modelled only as switching the event and application contexts on and off. `endCall` is taken to complete normally; an exception thrown from the `finally` block would replace the call's own.
- `InterceptorType` is modelled with the two values `Client` and `Server`; only `SERVER` appears in the interceptor's own code.
- `Ejb.SeamInterceptor.ForComponent` takes a non-null component; the NullPointerException a null component would raise in the constructor is not modelled.
- Calendar arithmetic is not modelled. One day is 86,400,000 ms, so days of 23 or 25 hours around daylight-saving changes are not represented. A null booking or null dates (NullPointerException) are not represented either.
- `persist` is modelled as storing the booking under a fresh id from a counter; JPA's id generation, `flush`, and `@Transactional` rollback are not modelled.
- `findHotels`, `findBookingsByUsername` and `testNonWebRequest` are JPA queries and console output; they are not modelled.
- `ChangePasswordAction`, `RegisterTest` and the `Identifier` annotation are persistence/UI glue, a test script and a declaration without behaviour; they are not modelled.
