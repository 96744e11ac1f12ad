/** `EventManager`: a registry from event name to an `ArrayList` of listeners,
    with synchronous in-order dispatch. Listeners are identified by opaque ids;
    invoking `onEvent` on a listener is recorded by returning its id. */
module EventManagers {
  import opened ArrayLists

  type ListenerId = nat

  /** An event is routed by its name only. */
  datatype Event = Event(name: string)

  class EventManager {
    var listeners: map<string, ArrayList<ListenerId>>

    /** Each name owns its own list object. */
    ghost predicate Valid()
      reads this
    {
      forall n, m :: n in listeners && m in listeners && n != m ==> listeners[n] != listeners[m]
    }

    /** The registry as values: name to the listeners in registration order. */
    ghost function Registry(): map<string, seq<ListenerId>>
      reads this, listeners.Values
    {
      map n | n in listeners :: listeners[n].list
    }

    constructor ()
      ensures Valid() && listeners == map[] && Registry() == map[]
    {
      listeners := map[];
    }

    /** `addEventListener`: append to the name's list, creating `[listener]` for a new name.
        Duplicates are kept. */
    method AddEventListener(eventName: string, listener: ListenerId)
      requires Valid()
      modifies this, listeners.Values
      ensures Valid()
      ensures eventName !in old(Registry()) ==> Registry() == old(Registry())[eventName := [listener]]
      ensures eventName in old(Registry()) ==>
                Registry() == old(Registry())[eventName := old(Registry())[eventName] + [listener]]
      ensures listeners.Keys == old(listeners.Keys) + {eventName}
      ensures forall n :: n in old(listeners) ==> listeners[n] == old(listeners[n])
      ensures eventName !in old(listeners) ==> fresh(listeners[eventName])
    {
      var list: ArrayList<ListenerId>;
      if eventName in listeners {
        list := listeners[eventName];
        list.PushBack(listener);
      } else {
        list := new ArrayList([listener]);
      }
      listeners := listeners[eventName := list];
    }

    /** `removeEventListener`: drop the first occurrence; no-op for an unknown name or an absent
        listener. The name stays mapped, possibly to an empty list. */
    method RemoveEventListener(eventName: string, listener: ListenerId)
      requires Valid()
      modifies listeners.Values
      ensures Valid() && listeners == old(listeners)
      ensures eventName !in old(Registry()) ==> Registry() == old(Registry())
      ensures eventName in old(Registry()) ==>
                Registry() == old(Registry())[eventName := RemoveFirst(old(Registry())[eventName], listener)]
    {
      if eventName in listeners {
        listeners[eventName].RemoveValue(listener);
      }
    }

    /** `triggerEvent`: the listeners registered under `event.name`, invoked in registration
        order; nobody for an unknown name. */
    method TriggerEvent(event: Event) returns (invoked: seq<ListenerId>)
      ensures event.name in Registry() ==> invoked == Registry()[event.name]
      ensures event.name !in Registry() ==> invoked == []
    {
      invoked := [];
      if event.name in listeners {
        invoked := listeners[event.name].ForEach();
      }
    }
  }

  /** The listeners registered under `name`, none for an unknown name. */
  function ListenersOf(registry: map<string, seq<ListenerId>>, name: string): seq<ListenerId> {
    if name in registry then registry[name] else []
  }

  /** Subscribing the same listener twice makes each dispatch invoke it twice more. */
  method DuplicateSubscription(em: EventManager, name: string, listener: ListenerId) returns (invoked: seq<ListenerId>)
    requires em.Valid()
    modifies em, em.listeners.Values
    ensures em.Valid()
    ensures invoked == ListenersOf(old(em.Registry()), name) + [listener, listener]
  {
    ghost var prior := ListenersOf(em.Registry(), name);
    em.AddEventListener(name, listener);
    ghost var once := em.Registry();
    assert name in once && once[name] == prior + [listener];
    em.AddEventListener(name, listener);
    invoked := em.TriggerEvent(Event(name));
  }

  /** Subscribing and then unsubscribing a listener keeps the name, and restores its list when
      the listener was not subscribed before; dispatch then invokes exactly the earlier ones. */
  method UnsubscribeLast(em: EventManager, name: string, listener: ListenerId) returns (invoked: seq<ListenerId>)
    requires em.Valid()
    modifies em, em.listeners.Values
    ensures em.Valid() && name in em.Registry()
    ensures invoked == em.Registry()[name] == RemoveFirst(ListenersOf(old(em.Registry()), name) + [listener], listener)
    ensures listener !in ListenersOf(old(em.Registry()), name) ==> invoked == ListenersOf(old(em.Registry()), name)
  {
    ghost var prior := ListenersOf(em.Registry(), name);
    em.AddEventListener(name, listener);
    em.RemoveEventListener(name, listener);
    invoked := em.TriggerEvent(Event(name));
    if listener !in prior {
      RemoveFirstAppended(prior, listener);
    }
  }
}
