/** org.jboss.seam.ejb: the interceptor Seam attaches to session beans, as a class whose
    fields its callbacks update, together with the thread's Seam contexts it consults and
    brackets. Every method is proved against its specification function in module
    Interception, whose own contracts and lemmas state what the interceptor guarantees. */
module Ejb {
  import opened Wrappers
  import opened Interception

  /** The Seam contexts of the calling thread, as Contexts reports them and Lifecycle
      sets them up and tears them down. */
  class SeamContexts {
    var eventActive: bool
    var applicationActive: bool

    function Active(): ActiveContexts
      reads this
    {
      ActiveContexts(eventActive, applicationActive)
    }

    constructor (event: bool, application: bool)
      ensures Active() == ActiveContexts(event, application)
    {
      eventActive, applicationActive := event, application;
    }

    /** Lifecycle.beginCall(): event and application contexts for one call. */
    method BeginCall()
      modifies this
      ensures Active() == Temporary
    {
      eventActive, applicationActive := true, true;
    }

    /** Lifecycle.endCall(): both contexts are gone again. */
    method EndCall()
      modifies this
      ensures Active() == ActiveContexts(false, false)
    {
      eventActive, applicationActive := false, false;
    }
  }

  class SeamInterceptor {
    const interceptorType: InterceptorType
    var isSeamComponent: bool
    var componentName: Option<string>
    var component: Option<Component>
    var userInterceptors: Option<seq<string>>

    /** The interceptor's fields as a value. */
    function State(): InterceptorState
      reads this
    {
      InterceptorState(interceptorType, isSeamComponent, componentName, component, userInterceptors)
    }

    /** Built by the EJB container: whether the bean is a Seam component is only known
        after postConstruct. */
    constructor ()
      ensures State() == Unresolved()
    {
      interceptorType := Server;
      isSeamComponent := false;
      componentName, component, userInterceptors := None, None, None;
    }

    /** Built by Seam for one of its components: always a Seam component. */
    constructor ForComponent(t: InterceptorType, c: Component)
      ensures interceptorType == t && isSeamComponent && component == Some(c)
      ensures componentName == Some(c.name) && userInterceptors == Some(c.CreateUserInterceptors(t))
      ensures Consistent(State()) && NamedConsistently(State())
    {
      interceptorType := t;
      isSeamComponent := false;
      componentName, component, userInterceptors := None, None, None;
      new;
      var completion := Init(Some(c));
    }

    method Init(c: Option<Component>) returns (completion: Outcome<Exception>)
      modifies this
      ensures Resolution(State(), completion) == Interception.Init(old(State()), c)
    {
      isSeamComponent := true;
      component := c;
      if c.None? {
        completion := Fail(NullPointerException);
        return;
      }
      userInterceptors := Some(c.value.CreateUserInterceptors(interceptorType));
      componentName := Some(c.value.name);
      completion := Pass;
    }

    method InitSessionBean(bean: Bean, threadComponent: Option<Component>, registry: Registry)
      returns (completion: Outcome<Exception>)
      modifies this
      ensures Resolution(State(), completion)
              == Interception.InitSessionBean(old(State()), bean, threadComponent, registry)
    {
      var invokingComponent := threadComponent;
      if invokingComponent.Some? {
        completion := Init(invokingComponent);
      } else if bean.nameAnnotation.Some? {
        completion := Init(ComponentForName(registry, bean.nameAnnotation));
      } else {
        isSeamComponent := false;
        completion := Pass;
      }
    }

    method PostConstruct(inv: Invocation, threadComponent: Option<Component>, registry: Registry,
                         contexts: SeamContexts)
      returns (completion: Outcome<Exception>, trace: seq<Action>)
      modifies this, contexts
      ensures Callback(State(), completion, trace, contexts.Active())
              == Interception.PostConstructCallback(old(State()), old(contexts.Active()), inv,
                                                    threadComponent, registry)
      ensures old(component).Some? ==> State() == old(State())
    {
      trace := [];
      if component.None? {
        completion := InitSessionBean(inv.target, threadComponent, registry);
        if completion.Fail? {
          return;
        }
      }
      if isSeamComponent {
        if component.None? {
          completion := Fail(NullPointerException);
          return;
        }
        trace := [Initialize];
        var initialization := inv.target.initialization;
        if initialization.Fail? {
          completion := Fail(Rethrow(initialization.error, InitializationFailure));
          return;
        }
      }
      var handled, callbackTrace := InvokeAndHandle(inv, EventType.PostConstruct, contexts);
      completion, trace := handled, trace + callbackTrace;
    }

    method PreDestroy(inv: Invocation, contexts: SeamContexts)
      returns (completion: Outcome<Exception>, trace: seq<Action>)
      modifies contexts
      ensures Callback(State(), completion, trace, contexts.Active())
              == Interception.InvokeAndHandle(State(), old(contexts.Active()), EventType.PreDestroy, inv)
    {
      completion, trace := InvokeAndHandle(inv, EventType.PreDestroy, contexts);
    }

    method PrePassivate(inv: Invocation, contexts: SeamContexts)
      returns (completion: Outcome<Exception>, trace: seq<Action>)
      modifies contexts
      ensures Callback(State(), completion, trace, contexts.Active())
              == Interception.InvokeAndHandle(State(), old(contexts.Active()), EventType.PrePassivate, inv)
    {
      completion, trace := InvokeAndHandle(inv, EventType.PrePassivate, contexts);
    }

    method PostActivate(inv: Invocation, registry: Registry, contexts: SeamContexts)
      returns (completion: Outcome<Exception>, trace: seq<Action>)
      modifies this, contexts
      ensures Callback(State(), completion, trace, contexts.Active())
              == Interception.PostActivateCallback(old(State()), old(contexts.Active()), inv, registry)
    {
      if isSeamComponent {
        component := ComponentForName(registry, componentName);
      }
      completion, trace := InvokeAndHandle(inv, EventType.PostActivate, contexts);
    }

    method InvokeAndHandle(inv: Invocation, event: EventType, contexts: SeamContexts)
      returns (completion: Outcome<Exception>, trace: seq<Action>)
      modifies contexts
      ensures Callback(State(), completion, trace, contexts.Active())
              == Interception.InvokeAndHandle(State(), old(contexts.Active()), event, inv)
    {
      var result;
      result, trace := Invoke(inv, event, contexts);
      match result
      case Returned(_) =>
        completion := Pass;
      case Threw(e) =>
        completion := Fail(Rethrow(e, CallbackFailure));
    }

    /** aroundInvoke: a business call; whatever the call throws is passed on unwrapped. */
    method AroundInvoke(inv: Invocation, contexts: SeamContexts)
      returns (result: Completion, trace: seq<Action>)
      modifies contexts
      ensures Call(result, trace, contexts.Active())
              == Interception.Invoke(State(), old(contexts.Active()), EventType.AroundInvoke, inv)
      ensures result == inv.proceed || result == inv.intercepted
    {
      result, trace := Invoke(inv, EventType.AroundInvoke, contexts);
    }

    method Invoke(inv: Invocation, event: EventType, contexts: SeamContexts)
      returns (result: Completion, trace: seq<Action>)
      modifies contexts
      ensures Call(result, trace, contexts.Active())
              == Interception.Invoke(State(), old(contexts.Active()), event, inv)
      ensures contexts.Active() == old(contexts.Active())
    {
      if !isSeamComponent {
        result := inv.proceed;
        trace := [Proceed(contexts.Active())];
      } else if contexts.eventActive || contexts.applicationActive {
        result, trace := InvokeInContexts(inv, event, contexts);
      } else {
        contexts.BeginCall();
        var inner;
        result, inner := InvokeInContexts(inv, event, contexts);
        contexts.EndCall();
        trace := [BeginCall] + inner + [EndCall];
      }
    }

    method InvokeInContexts(inv: Invocation, event: EventType, contexts: SeamContexts)
      returns (result: Completion, trace: seq<Action>)
      ensures Call(result, trace, contexts.Active())
              == Interception.InvokeInContexts(State(), contexts.Active(), event, inv)
    {
      if IsProcessInterceptors(component) {
        var chain := Chain(event, userInterceptors, component.value.Interceptors(interceptorType),
                           contexts.Active());
        result, trace := inv.intercepted, [chain];
      } else {
        result, trace := inv.proceed, [Proceed(contexts.Active())];
      }
    }

    function GetComponent(): Option<Component>
      reads this
    {
      component
    }
  }
}
