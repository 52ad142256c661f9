/**
 * The service host `SerialManagerService`: it creates the status provider
 * once and forwards listener registrations to it, turning the provider's
 * exceptions into results.
 *
 * `sProvidersLoaded` is a static of the class; with the one service object
 * of the model it is a field here.  Whether constructing the provider
 * throws is passed in.
 */
module ManagerService {
  import opened Common
  import opened StatusProvider

  /** How `addSerialStatusListener` ends: a boolean result, or the
      `NullPointerException` the provider throws for a null listener, which
      the service does not catch. */
  datatype AddResult = Answered(added: bool) | NullPointerThrown

  class Service {
    /** `sProvidersLoaded` */
    var providersLoaded: bool
    /** `mSerialStatusProvider` */
    var provider: Provider?

    ghost predicate Valid()
      reads this, provider
    {
      provider != null ==> provider.Valid()
    }

    constructor ()
      ensures Valid() && !providersLoaded && provider == null
    {
      providersLoaded := false;
      provider := null;
    }

    /** `loadProviders`: the first call creates the provider (an exception
        while doing so is swallowed) and sets the loaded flag either way;
        every later call returns at once. */
    method LoadProviders(constructionFails: bool)
      requires Valid()
      modifies this
      ensures Valid() && providersLoaded
      ensures old(providersLoaded) ==> provider == old(provider)
      ensures !old(providersLoaded) && constructionFails ==> provider == old(provider)
      ensures !old(providersLoaded) && !constructionFails ==>
                && provider != null && fresh(provider)
                && provider.listeners == [] && provider.links == {} && provider.clientUids == map[]
    {
      if providersLoaded {
        return;
      }
      LoadProvidersLocked(constructionFails);
      providersLoaded := true;
    }

    /** `loadProvidersLocked` around `_loadProvidersLocked`. */
    method LoadProvidersLocked(constructionFails: bool)
      requires Valid()
      modifies this
      ensures Valid() && providersLoaded == old(providersLoaded)
      ensures constructionFails ==> provider == old(provider)
      ensures !constructionFails ==>
                && provider != null && fresh(provider)
                && provider.listeners == [] && provider.links == {} && provider.clientUids == map[]
    {
      if constructionFails {
        return;
      }
      provider := new Provider();
    }

    /** `addSerialStatusListener`: false without a provider; otherwise
        delegate, answering false when linking the listener to its binder's
        death fails and true otherwise.  A null listener makes the provider
        throw, and that exception escapes. */
    method AddSerialStatusListener(listener: Option<RemoteListener>, binderAlive: bool) returns (r: AddResult)
      requires Valid()
      modifies provider
      ensures Valid()
      ensures provider == null ==> r == Answered(false)
      ensures provider != null && listener.None? ==>
                r == NullPointerThrown && provider.listeners == old(provider.listeners)
      ensures provider != null && listener.Some? ==>
                var isNew := listener.value.binder !in Binders(old(provider.listeners));
                && r == Answered(!isNew || binderAlive)
                && (isNew && binderAlive ==>
                      && |provider.listeners| == |old(provider.listeners)| + 1
                      && provider.listeners[..|old(provider.listeners)|] == old(provider.listeners)
                      && provider.listeners[|old(provider.listeners)|].listener == listener.value)
                && (!isNew || !binderAlive ==> provider.listeners == old(provider.listeners))
    {
      if provider == null {
        return Answered(false);
      }
      var outcome := provider.AddSerialStatusListener(listener, binderAlive);
      match outcome
      case NullPointer => r := NullPointerThrown;
      case RemoteFailure => r := Answered(false);
      case Done => r := Answered(true);
    }

    /** `removeSerialStatusListener`: delegate and swallow every exception,
        including the one raised when there is no provider. */
    method RemoveSerialStatusListener(listener: Option<RemoteListener>)
      requires Valid()
      modifies provider
      ensures Valid()
      ensures provider != null && listener.Some? ==> listener.value.binder !in Binders(provider.listeners)
      ensures provider != null && listener.None? ==> provider.listeners == old(provider.listeners)
      ensures provider != null && listener.Some? && listener.value.binder !in Binders(old(provider.listeners)) ==>
                provider.listeners == old(provider.listeners) && provider.links == old(provider.links)
      ensures provider != null && listener.Some? && listener.value.binder in Binders(old(provider.listeners)) ==>
                var i := FirstWithBinder(old(provider.listeners), listener.value.binder);
                && provider.listeners == old(provider.listeners)[..i] + old(provider.listeners)[i + 1..]
                && provider.links == old(provider.links) - {old(provider.listeners)[i]}
      ensures provider != null ==> provider.clientUids == old(provider.clientUids)
    {
      if provider == null {
        return;
      }
      var _ := provider.RemoveSerialStatusListener(listener);
    }
  }

  /** The provider is made by the first load only: a second load keeps it. */
  method LoadOnceScenario() returns (first: Provider?, second: Provider?)
    ensures first != null && second == first
  {
    var service := new Service();
    service.LoadProviders(false);
    first := service.provider;
    service.LoadProviders(false);
    second := service.provider;
  }

  /** A failing first load still marks the providers as loaded, so the
      service stays without a provider and refuses every listener. */
  method FailedLoadScenario(listener: RemoteListener) returns (loaded: bool, r: AddResult)
    ensures loaded && r == Answered(false)
  {
    var service := new Service();
    service.LoadProviders(true);
    service.LoadProviders(false);
    loaded := service.providersLoaded;
    r := service.AddSerialStatusListener(Some(listener), true);
  }
}
