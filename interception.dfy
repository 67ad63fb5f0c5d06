/** The Seam session-bean interceptor (org.jboss.seam.ejb.SeamInterceptor) as values:
    the interceptor's state, the Seam contexts it sees, the container invocation it
    handles, and the trace of actions one callback performs. The functions here are
    the specification the class in module Ejb is proved against; the lemmas state what
    holds of every call and of every sequence of container callbacks. */
module Interception {
  import opened Wrappers

  /** org.jboss.seam.InterceptorType: the side of the bean the interceptor serves. */
  datatype InterceptorType = Client | Server

  /** org.jboss.seam.interceptors.EventType: the container callback being intercepted. */
  datatype EventType = AroundInvoke | PostConstruct | PreDestroy | PrePassivate | PostActivate

  /** What the interceptor consults of an org.jboss.seam.Component. Interceptors are
      represented by their class names. */
  datatype Component = Component(
    name: string,
    interceptionActive: bool,
    clientUserInterceptors: seq<string>,
    serverUserInterceptors: seq<string>,
    clientInterceptors: seq<string>,
    serverInterceptors: seq<string>)
  {
    /** The user interceptors the component creates for one side. */
    function CreateUserInterceptors(t: InterceptorType): seq<string>
    {
      if t == Client then clientUserInterceptors else serverUserInterceptors
    }

    /** The framework interceptors the component declares for one side. */
    function Interceptors(t: InterceptorType): seq<string>
    {
      if t == Client then clientInterceptors else serverInterceptors
    }
  }

  /** The components Seam knows, by name. */
  type Registry = map<string, Component>

  /** Seam.componentForName: null (None) for a name no component is registered under. */
  function ComponentForName(registry: Registry, name: Option<string>): Option<Component>
  {
    if name.Some? && name.value in registry then Some(registry[name.value]) else None
  }

  /** Every component is registered under its own name. */
  ghost predicate RegistryConsistent(registry: Registry)
  {
    forall n :: n in registry ==> registry[n].name == n
  }

  /** The exceptions the interceptor throws or passes on. */
  datatype Exception =
    | RuntimeException(message: string, cause: Option<Exception>)
    | NullPointerException
    | CheckedException(message: string)
  {
    /** An unchecked exception: a RuntimeException or one of its subclasses. */
    predicate IsRuntime() { !CheckedException? }
  }

  /** An exception followed by its causes, outermost first. */
  function CauseChain(e: Exception): (chain: seq<Exception>)
    ensures |chain| >= 1 && chain[0] == e
  {
    match e
    case RuntimeException(_, Some(c)) => [e] + CauseChain(c)
    case _ => [e]
  }

  const InitializationFailure := "exception initializing EJB component"
  const CallbackFailure := "exception in EJB lifecycle callback"

  /** The exception translation used around lifecycle work: an unchecked exception is
      thrown again as it is, a checked one is wrapped in a RuntimeException that carries
      the given message and keeps the original as its cause. */
  function Rethrow(e: Exception, message: string): (r: Exception)
    ensures r.IsRuntime()
    ensures e in CauseChain(r)
    ensures e.IsRuntime() ==> r == e
    ensures !e.IsRuntime() ==> r.RuntimeException? && r.message == message && r.cause == Some(e)
  {
    if e.IsRuntime() then e else RuntimeException(message, Some(e))
  }

  /** An object reference returned by a business method. */
  type Ref = nat

  /** How a call that returns a value ends. */
  datatype Completion = Returned(value: Ref) | Threw(ex: Exception)

  /** The intercepted bean: the value of its class's @Name annotation, if it has one, and
      how component.initialize(bean) ends for it. */
  datatype Bean = Bean(nameAnnotation: Option<string>, initialization: Outcome<Exception>)

  /** A container InvocationContext: its target, how invocation.proceed() ends, and how
      the Seam interceptor chain (SeamInvocationContext.proceed()) ends for it. */
  datatype Invocation = Invocation(target: Bean, proceed: Completion, intercepted: Completion)

  /** Which Seam contexts are active on the calling thread. */
  datatype ActiveContexts = ActiveContexts(eventContext: bool, applicationContext: bool)
  {
    predicate Any() { eventContext || applicationContext }
  }

  /** One observable action of the interceptor. A call records the contexts active while
      it ran. */
  datatype Action =
    | Initialize
    | BeginCall
    | EndCall
    | Proceed(during: ActiveContexts)
    | Chain(event: EventType, userInterceptors: Option<seq<string>>, interceptors: seq<string>,
            during: ActiveContexts)
  {
    /** The action hands control to the bean, directly or through the interceptor chain. */
    predicate IsCall() { Proceed? || Chain? }
  }

  /** The fields of a SeamInterceptor. */
  datatype InterceptorState = InterceptorState(
    interceptorType: InterceptorType,
    isSeamComponent: bool,
    componentName: Option<string>,
    component: Option<Component>,
    userInterceptors: Option<seq<string>>)

  /** The state the EJB container's no-argument constructor leaves. */
  function Unresolved(): (s: InterceptorState)
    ensures Consistent(s) && !s.isSeamComponent && s.component.None?
  {
    InterceptorState(Server, false, None, None, None)
  }

  /** The interceptor's fields agree: the name and the user interceptors are set together,
      and a component is held only by an interceptor of a Seam component that knows the
      component's name. */
  predicate Consistent(s: InterceptorState)
  {
    && (s.componentName.Some? <==> s.userInterceptors.Some?)
    && (s.component.Some? ==> s.isSeamComponent && s.componentName.Some?)
  }

  /** The held component is the one named by componentName. */
  predicate NamedConsistently(s: InterceptorState)
  {
    s.component.Some? ==> s.componentName == Some(s.component.value.name)
  }

  /** The new state and how a step that changes only the interceptor ends. */
  datatype Resolution = Resolution(state: InterceptorState, completion: Outcome<Exception>)

  /** init(component): marks the bean as a Seam component and records the component, its
      user interceptors for this side and its name. A null component fails with a
      NullPointerException once the flag and the component field are already set. */
  function Init(s: InterceptorState, c: Option<Component>): (r: Resolution)
    ensures r.state.interceptorType == s.interceptorType
    ensures r.state.isSeamComponent && r.state.component == c
    ensures c.Some? ==> && r.completion == Pass
                        && r.state.componentName == Some(c.value.name)
                        && r.state.userInterceptors == Some(c.value.CreateUserInterceptors(s.interceptorType))
    ensures c.None? ==> && r.completion == Fail(NullPointerException)
                        && r.state.componentName == s.componentName
                        && r.state.userInterceptors == s.userInterceptors
    ensures Consistent(s) ==> Consistent(r.state)
    ensures NamedConsistently(r.state)
  {
    match c
    case None =>
      Resolution(s.(isSeamComponent := true, component := None), Fail(NullPointerException))
    case Some(comp) =>
      Resolution(s.(isSeamComponent := true, component := c,
                    userInterceptors := Some(comp.CreateUserInterceptors(s.interceptorType)),
                    componentName := Some(comp.name)),
                 Pass)
  }

  /** initSessionBean(bean): works out which component a container-built bean is. The
      component the factory left in the thread-local wins; else the component registered
      under the class's @Name; else the bean is not a Seam component. */
  function InitSessionBean(s: InterceptorState, bean: Bean, threadComponent: Option<Component>,
                           registry: Registry): (r: Resolution)
    ensures r.state.interceptorType == s.interceptorType
    ensures threadComponent.Some? ==> r == Init(s, threadComponent)
    ensures threadComponent.None? && bean.nameAnnotation.Some? ==>
              && r == Init(s, ComponentForName(registry, bean.nameAnnotation))
              && (r.completion == Pass <==> bean.nameAnnotation.value in registry)
    ensures threadComponent.None? && bean.nameAnnotation.None? ==>
              r == Resolution(s.(isSeamComponent := false), Pass)
    ensures r.completion.Fail? ==> r.completion.error == NullPointerException
    ensures s.component.None? && r.completion == Pass ==>
              (r.state.isSeamComponent <==> r.state.component.Some?)
    ensures s.component.None? && Consistent(s) ==> Consistent(r.state)
    ensures RegistryConsistent(registry) && s.component.None? ==> NamedConsistently(r.state)
  {
    if threadComponent.Some? then
      Init(s, threadComponent)
    else if bean.nameAnnotation.Some? then
      Init(s, ComponentForName(registry, bean.nameAnnotation))
    else
      Resolution(s.(isSeamComponent := false), Pass)
  }

  /** isProcessInterceptors(component): the interceptor chain runs only for a component
      that is present and whose interception type is active. */
  function IsProcessInterceptors(c: Option<Component>): (b: bool)
    ensures b ==> c.Some?
    ensures c.Some? ==> (b <==> c.value.interceptionActive)
  {
    c.Some? && c.value.interceptionActive
  }

  /** How a call ends, what it did, and which contexts are active afterwards. */
  datatype Call = Call(completion: Completion, trace: seq<Action>, contexts: ActiveContexts)

  /** invokeInContexts: with contexts in place, run the Seam interceptor chain (built
      from the event, the user interceptors and the component's interceptors) when
      interception applies, and otherwise proceed directly. */
  function InvokeInContexts(s: InterceptorState, contexts: ActiveContexts, event: EventType,
                            inv: Invocation): (r: Call)
    ensures r.contexts == contexts && |r.trace| == 1 && r.trace[0].IsCall()
    ensures r.trace[0].during == contexts
    ensures r.trace[0].Chain? <==> s.component.Some? && s.component.value.interceptionActive
    ensures r.trace[0].Chain? ==>
              && r.completion == inv.intercepted
              && r.trace[0] == Chain(event, s.userInterceptors,
                                     s.component.value.Interceptors(s.interceptorType), contexts)
    ensures r.trace[0].Proceed? ==> r.completion == inv.proceed
  {
    if IsProcessInterceptors(s.component) then
      Call(inv.intercepted,
           [Chain(event, s.userInterceptors, s.component.value.Interceptors(s.interceptorType), contexts)],
           contexts)
    else
      Call(inv.proceed, [Proceed(contexts)], contexts)
  }

  /** The contexts Lifecycle.beginCall() sets up for one call. */
  const Temporary := ActiveContexts(true, true)

  /** invoke: a bean that is not a Seam component just proceeds; a Seam component called
      inside Seam contexts is handled in them; otherwise temporary event and application
      contexts are begun for the call and ended after it, however it ends. */
  function Invoke(s: InterceptorState, contexts: ActiveContexts, event: EventType,
                  inv: Invocation): (r: Call)
    ensures r.contexts == contexts
    ensures r.completion == inv.proceed || r.completion == inv.intercepted
    ensures !s.isSeamComponent ==> r == Call(inv.proceed, [Proceed(contexts)], contexts)
    ensures BeginCall in r.trace <==> s.isSeamComponent && !contexts.Any()
    ensures EndCall in r.trace <==> s.isSeamComponent && !contexts.Any()
    ensures BeginCall in r.trace ==> r.trace[0] == BeginCall && r.trace[|r.trace| - 1] == EndCall
    ensures s.isSeamComponent ==> forall a :: a in r.trace && a.IsCall() ==> a.during.Any()
    ensures s.isSeamComponent && contexts.Any() ==> r == InvokeInContexts(s, contexts, event, inv)
    ensures s.isSeamComponent && !contexts.Any() ==>
              var inner := InvokeInContexts(s, Temporary, event, inv);
              r == Call(inner.completion, [BeginCall] + inner.trace + [EndCall], contexts)
  {
    if !s.isSeamComponent then
      Call(inv.proceed, [Proceed(contexts)], contexts)
    else if contexts.Any() then
      InvokeInContexts(s, contexts, event, inv)
    else
      var inner := InvokeInContexts(s, Temporary, event, inv);
      Call(inner.completion, [BeginCall] + inner.trace + [EndCall], contexts)
  }

  /** The new state, how a lifecycle callback ends, what it did, and which contexts are
      active afterwards. */
  datatype Callback = Callback(state: InterceptorState, completion: Outcome<Exception>,
                               trace: seq<Action>, contexts: ActiveContexts)

  /** invokeAndHandle: a lifecycle callback runs invoke and translates what it throws,
      passing unchecked exceptions on and wrapping checked ones. */
  function InvokeAndHandle(s: InterceptorState, contexts: ActiveContexts, event: EventType,
                           inv: Invocation): (r: Callback)
    ensures r.state == s && r.contexts == contexts
    ensures r.trace == Invoke(s, contexts, event, inv).trace
    ensures r.completion == Pass <==> Invoke(s, contexts, event, inv).completion.Returned?
    ensures r.completion.Fail? ==>
              r.completion.error == Rethrow(Invoke(s, contexts, event, inv).completion.ex, CallbackFailure)
  {
    var call := Invoke(s, contexts, event, inv);
    match call.completion
    case Returned(_) => Callback(s, Pass, call.trace, contexts)
    case Threw(e) => Callback(s, Fail(Rethrow(e, CallbackFailure)), call.trace, contexts)
  }

  /** postConstruct: resolves the component only when none is held yet, initialises the
      bean of a Seam component (translating what initialisation throws), then handles
      the callback. */
  function PostConstructCallback(s: InterceptorState, contexts: ActiveContexts, inv: Invocation,
                         threadComponent: Option<Component>, registry: Registry): (r: Callback)
    ensures r.contexts == contexts
    ensures r.state.interceptorType == s.interceptorType
    ensures s.component.Some? ==> r.state == s
    ensures s.component.None? ==>
              r.state == InitSessionBean(s, inv.target, threadComponent, registry).state
    ensures r.completion.Fail? ==> r.completion.error.IsRuntime()
    ensures r.state.isSeamComponent && r.trace != [] ==> r.trace[0] == Initialize
    ensures !r.state.isSeamComponent ==> Initialize !in r.trace
    ensures inv.target.initialization.Fail? && Initialize in r.trace ==>
              && r.trace == [Initialize]
              && r.completion == Fail(Rethrow(inv.target.initialization.error, InitializationFailure))
    ensures && (s.component.Some? || InitSessionBean(s, inv.target, threadComponent, registry).completion == Pass)
            && r.state.isSeamComponent && r.state.component.None?
            ==>
              r.trace == [] && r.completion == Fail(NullPointerException)
    ensures && (s.component.Some? || InitSessionBean(s, inv.target, threadComponent, registry).completion == Pass)
            && r.state.isSeamComponent && r.state.component.Some? && inv.target.initialization.Fail?
            ==>
              && r.trace == [Initialize]
              && r.completion == Fail(Rethrow(inv.target.initialization.error, InitializationFailure))
    ensures s.component.None? && InitSessionBean(s, inv.target, threadComponent, registry).completion.Fail? ==>
              && r.trace == []
              && r.completion == InitSessionBean(s, inv.target, threadComponent, registry).completion
    ensures && (s.component.Some? || InitSessionBean(s, inv.target, threadComponent, registry).completion == Pass)
            && (r.state.isSeamComponent ==> r.state.component.Some? && inv.target.initialization == Pass)
            ==>
              && r.trace == (if r.state.isSeamComponent then [Initialize] else [])
                            + Invoke(r.state, contexts, EventType.PostConstruct, inv).trace
              && r.completion == InvokeAndHandle(r.state, contexts, EventType.PostConstruct, inv).completion
    ensures Consistent(s) ==> Consistent(r.state)
  {
    var resolved :=
      if s.component.None? then InitSessionBean(s, inv.target, threadComponent, registry)
      else Resolution(s, Pass);
    var t := resolved.state;
    if resolved.completion.Fail? then
      Callback(t, resolved.completion, [], contexts)
    else if !t.isSeamComponent then
      InvokeAndHandle(t, contexts, EventType.PostConstruct, inv)
    else if t.component.None? then
      Callback(t, Fail(NullPointerException), [], contexts)
    else if inv.target.initialization.Fail? then
      Callback(t, Fail(Rethrow(inv.target.initialization.error, InitializationFailure)),
               [Initialize], contexts)
    else
      var handled := InvokeAndHandle(t, contexts, EventType.PostConstruct, inv);
      Callback(t, handled.completion, [Initialize] + handled.trace, contexts)
  }

  /** postActivate: after passivation the component is fetched again by name, for a Seam
      component only, before the callback is handled. */
  function PostActivateCallback(s: InterceptorState, contexts: ActiveContexts, inv: Invocation,
                        registry: Registry): (r: Callback)
    ensures r.contexts == contexts
    ensures !s.isSeamComponent ==> r.state == s
    ensures s.isSeamComponent ==> r.state == s.(component := ComponentForName(registry, s.componentName))
    ensures r.completion.Fail? ==> r.completion.error.IsRuntime()
    ensures Consistent(s) ==> Consistent(r.state)
    ensures RegistryConsistent(registry) && NamedConsistently(s) ==> NamedConsistently(r.state)
    ensures r.trace == Invoke(r.state, contexts, EventType.PostActivate, inv).trace
    ensures r.completion == InvokeAndHandle(r.state, contexts, EventType.PostActivate, inv).completion
  {
    var t := if s.isSeamComponent then s.(component := ComponentForName(registry, s.componentName)) else s;
    InvokeAndHandle(t, contexts, EventType.PostActivate, inv)
  }

  /** A callback the EJB container delivers to the interceptor. */
  datatype ContainerEvent =
    | Construct(inv: Invocation, threadComponent: Option<Component>)
    | Destroy(inv: Invocation)
    | Passivate(inv: Invocation)
    | Activate(inv: Invocation)
    | Business(inv: Invocation)

  /** The entry point the container calls for an event: postConstruct, preDestroy,
      prePassivate, postActivate or aroundInvoke. */
  function Dispatch(s: InterceptorState, contexts: ActiveContexts, registry: Registry,
                    e: ContainerEvent): Callback
  {
    match e
    case Construct(inv, threadComponent) => PostConstructCallback(s, contexts, inv, threadComponent, registry)
    case Destroy(inv) => InvokeAndHandle(s, contexts, PreDestroy, inv)
    case Passivate(inv) => InvokeAndHandle(s, contexts, PrePassivate, inv)
    case Activate(inv) => PostActivateCallback(s, contexts, inv, registry)
    case Business(inv) =>
      var call := Invoke(s, contexts, AroundInvoke, inv);
      Callback(s, if call.completion.Threw? then Fail(call.completion.ex) else Pass, call.trace,
               call.contexts)
  }

  /** The state, the actions and the contexts after a sequence of container callbacks. */
  datatype History = History(state: InterceptorState, trace: seq<Action>, contexts: ActiveContexts)

  function Replay(s: InterceptorState, contexts: ActiveContexts, registry: Registry,
                  events: seq<ContainerEvent>): History
    decreases |events|
  {
    if events == [] then History(s, [], contexts)
    else
      var first := Dispatch(s, contexts, registry, events[0]);
      var rest := Replay(first.state, first.contexts, registry, events[1..]);
      History(rest.state, first.trace + rest.trace, rest.contexts)
  }

  /** The number of times an action occurs in a trace. */
  function Count(trace: seq<Action>, a: Action): nat
  {
    if trace == [] then 0 else (if trace[0] == a then 1 else 0) + Count(trace[1..], a)
  }

  lemma {:induction false} CountAppend(x: seq<Action>, y: seq<Action>, a: Action)
    ensures Count(x + y, a) == Count(x, a) + Count(y, a)
  {
    if x == [] {
      assert x + y == y;
    } else {
      assert (x + y)[1..] == x[1..] + y;
      CountAppend(x[1..], y, a);
    }
  }

  /** One invocation begins temporary contexts at most once and ends exactly as many as
      it begins: once when a Seam component is called outside every context, never
      otherwise. */
  lemma InvokeBalanced(s: InterceptorState, contexts: ActiveContexts, event: EventType,
                       inv: Invocation)
    ensures var t := Invoke(s, contexts, event, inv).trace;
            && Count(t, BeginCall) == Count(t, EndCall)
            && Count(t, BeginCall) == if s.isSeamComponent && !contexts.Any() then 1 else 0
  {
    var t := Invoke(s, contexts, event, inv).trace;
    if s.isSeamComponent && !contexts.Any() {
      var inner := InvokeInContexts(s, Temporary, event, inv).trace;
      assert t == [BeginCall] + inner + [EndCall];
      CountAppend([BeginCall] + inner, [EndCall], BeginCall);
      CountAppend([BeginCall], inner, BeginCall);
      CountAppend([BeginCall] + inner, [EndCall], EndCall);
      CountAppend([BeginCall], inner, EndCall);
    }
  }

  /** The actions of an invocation do not depend on how the call ends: the temporary
      contexts are ended after a call that throws exactly as after one that returns. */
  lemma InvokeTraceIgnoresCompletion(s: InterceptorState, contexts: ActiveContexts,
                                     event: EventType, inv: Invocation,
                                     proceed: Completion, intercepted: Completion)
    ensures Invoke(s, contexts, event, inv).trace
            == Invoke(s, contexts, event, inv.(proceed := proceed, intercepted := intercepted)).trace
  {
  }

  /** Every container callback keeps the contexts as it found them and ends every
      temporary context it begins. */
  lemma DispatchBalanced(s: InterceptorState, contexts: ActiveContexts, registry: Registry,
                         e: ContainerEvent)
    ensures var r := Dispatch(s, contexts, registry, e);
            && r.contexts == contexts
            && Count(r.trace, BeginCall) == Count(r.trace, EndCall)
  {
    match e
    case Construct(inv, threadComponent) =>
      var resolved :=
        if s.component.None? then InitSessionBean(s, inv.target, threadComponent, registry)
        else Resolution(s, Pass);
      InvokeBalanced(resolved.state, contexts, EventType.PostConstruct, inv);
      var t := Invoke(resolved.state, contexts, EventType.PostConstruct, inv).trace;
      CountAppend([Initialize], t, BeginCall);
      CountAppend([Initialize], t, EndCall);
    case Destroy(inv) => InvokeBalanced(s, contexts, PreDestroy, inv);
    case Passivate(inv) => InvokeBalanced(s, contexts, PrePassivate, inv);
    case Activate(inv) =>
      var t := if s.isSeamComponent then s.(component := ComponentForName(registry, s.componentName)) else s;
      InvokeBalanced(t, contexts, EventType.PostActivate, inv);
    case Business(inv) => InvokeBalanced(s, contexts, AroundInvoke, inv);
  }

  /** Over any sequence of container callbacks the Seam contexts end as they began,
      beginCall and endCall occur equally often, and the interceptor's fields stay
      consistent. */
  lemma {:induction false} ReplayBalanced(s: InterceptorState, contexts: ActiveContexts,
                                          registry: Registry, events: seq<ContainerEvent>)
    ensures var h := Replay(s, contexts, registry, events);
            && h.contexts == contexts
            && Count(h.trace, BeginCall) == Count(h.trace, EndCall)
            && (Consistent(s) ==> Consistent(h.state))
    decreases |events|
  {
    if events != [] {
      var first := Dispatch(s, contexts, registry, events[0]);
      DispatchBalanced(s, contexts, registry, events[0]);
      if Consistent(s) {
        DispatchConsistent(s, contexts, registry, events[0]);
      }
      ReplayBalanced(first.state, first.contexts, registry, events[1..]);
      var rest := Replay(first.state, first.contexts, registry, events[1..]);
      CountAppend(first.trace, rest.trace, BeginCall);
      CountAppend(first.trace, rest.trace, EndCall);
    }
  }

  /** Every container callback keeps the interceptor's fields consistent. */
  lemma DispatchConsistent(s: InterceptorState, contexts: ActiveContexts, registry: Registry,
                           e: ContainerEvent)
    requires Consistent(s)
    ensures Consistent(Dispatch(s, contexts, registry, e).state)
  {
  }

  /** An interceptor that already holds a component is never resolved again: postConstruct
      leaves its state as it was, so a second postConstruct after a successful one changes
      nothing whatever the thread-local and the bean's annotation say. */
  lemma PostConstructResolvesOnce(s: InterceptorState, contexts: ActiveContexts, inv1: Invocation,
                                  inv2: Invocation, thread1: Option<Component>,
                                  thread2: Option<Component>, registry: Registry)
    requires PostConstructCallback(s, contexts, inv1, thread1, registry).completion == Pass
    ensures var first := PostConstructCallback(s, contexts, inv1, thread1, registry);
            first.state.isSeamComponent ==>
              PostConstructCallback(first.state, contexts, inv2, thread2, registry).state == first.state
  {
  }
}
