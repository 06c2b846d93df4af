/**
 * `Ioc`: a service locator around one service provider that can be
 * configured exactly once. Reads fail until it is configured.
 *
 * Service types are `T`; the provider is the table of registrations it
 * answers from, and an unregistered type answers `null` (`None`).
 */
module Ioc {
  import opened Wrappers

  /** The exceptions the locator throws. */
  datatype IocError =
    | ArgumentNull
      /** "The service provider has not been configured yet." */
    | NotConfigured
      /** "The default service provider has already been configured." */
    | AlreadyConfigured
      /** "The requested service type was not registered." */
    | NotRegistered

  /** An `IServiceProvider`, given by the services it has registered. */
  datatype ServiceProvider<T, S> = ServiceProvider(registrations: map<T, S>)

  /** `IServiceProvider.GetService`: the registered service, or `null`. */
  function ProviderGetService<T, S>(p: ServiceProvider<T, S>, serviceType: T): Option<S>
  {
    if serviceType in p.registrations then Some(p.registrations[serviceType]) else None
  }

  /**
   * One `ConfigureServices` call on the stored provider `current`: the new
   * stored provider and the call's outcome.
   */
  function Configure<T, S>(current: Option<ServiceProvider<T, S>>, p: Option<ServiceProvider<T, S>>)
    : (r: (Option<ServiceProvider<T, S>>, Outcome<IocError>))
    ensures r.1.Fail? ==> r.0 == current
    ensures r.1.Pass? <==> current.None? && p.Some?
    ensures r.1.Pass? ==> r.0 == p
  {
    if p.None? then (current, Fail(ArgumentNull))
    else if current.Some? then (current, Fail(AlreadyConfigured))
    else (p, Pass)
  }

  /** A failing call leaves the stored provider as it was; a passing one stores its argument into an empty slot. */
  lemma ConfigureOutcome<T, S>(current: Option<ServiceProvider<T, S>>, p: Option<ServiceProvider<T, S>>)
    ensures Configure(current, p).1.Fail? ==> Configure(current, p).0 == current
    ensures Configure(current, p).1 == Pass <==> current.None? && p.Some?
    ensures Configure(current, p).1 == Pass ==> Configure(current, p).0 == p
    ensures p.None? ==> Configure(current, p).1 == Fail(ArgumentNull)
    ensures p.Some? && current.Some? ==> Configure(current, p).1 == Fail(AlreadyConfigured)
  {
  }

  /** The stored provider after a sequence of `ConfigureServices` calls. */
  function ConfigureAll<T, S>(current: Option<ServiceProvider<T, S>>, calls: seq<Option<ServiceProvider<T, S>>>)
    : Option<ServiceProvider<T, S>>
    decreases |calls|
  {
    if calls == [] then current else ConfigureAll(Configure(current, calls[0]).0, calls[1..])
  }

  /** The first non-null argument in a sequence of calls, if any. */
  function FirstProvider<T, S>(calls: seq<Option<ServiceProvider<T, S>>>): (r: Option<ServiceProvider<T, S>>)
    ensures r.Some? ==> r in calls
    ensures r.None? ==> forall i :: 0 <= i < |calls| ==> calls[i].None?
  {
    if calls == [] then None else if calls[0].Some? then calls[0] else FirstProvider(calls[1..])
  }

  /** Once configured, no sequence of further calls changes the stored provider. */
  lemma {:induction false} ConfiguredStays<T, S>(p: ServiceProvider<T, S>, calls: seq<Option<ServiceProvider<T, S>>>)
    ensures ConfigureAll(Some(p), calls) == Some(p)
  {
    if calls != [] {
      ConfiguredStays(p, calls[1..]);
    }
  }

  /** From the unconfigured state, the first non-null provider passed is the one kept. */
  lemma {:induction false} FirstConfigurationWins<T, S>(calls: seq<Option<ServiceProvider<T, S>>>)
    ensures ConfigureAll(None, calls) == FirstProvider(calls)
  {
    if calls != [] {
      if calls[0].Some? {
        ConfiguredStays(calls[0].value, calls[1..]);
      } else {
        FirstConfigurationWins(calls[1..]);
      }
    }
  }

  class Ioc<T(==), S> {
    /** The stored provider; `None` until configured. */
    var serviceProvider: Option<ServiceProvider<T, S>>

    constructor ()
      ensures serviceProvider.None?
    {
      serviceProvider := None;
    }

    /**
     * `GetService(Type)`: a null type is rejected before the configured
     * check; once configured, the provider's answer is returned.
     */
    method GetService(serviceType: Option<T>) returns (r: Result<Option<S>, IocError>)
      ensures serviceType.None? ==> r == Err(ArgumentNull)
      ensures serviceType.Some? && serviceProvider.None? ==> r == Err(NotConfigured)
      ensures serviceType.Some? && serviceProvider.Some? ==>
                r == Ok(ProviderGetService(serviceProvider.value, serviceType.value))
    {
      if serviceType.None? {
        return Err(ArgumentNull);
      }
      var provider := serviceProvider;
      if provider.None? {
        return Err(NotConfigured);
      }
      r := Ok(ProviderGetService(provider.value, serviceType.value));
    }

    /** `GetService<T>()`: the same, for a type that is never null. */
    method GetServiceOf(serviceType: T) returns (r: Result<Option<S>, IocError>)
      ensures serviceProvider.None? <==> r == Err(NotConfigured)
      ensures serviceProvider.Some? ==> r == Ok(ProviderGetService(serviceProvider.value, serviceType))
    {
      var provider := serviceProvider;
      if provider.None? {
        return Err(NotConfigured);
      }
      r := Ok(ProviderGetService(provider.value, serviceType));
    }

    /** `GetRequiredService<T>()`: a non-null service, or NotConfigured / NotRegistered. */
    method GetRequiredService(serviceType: T) returns (r: Result<S, IocError>)
      ensures serviceProvider.None? <==> r == Err(NotConfigured)
      ensures serviceProvider.Some? && serviceType !in serviceProvider.value.registrations <==> r == Err(NotRegistered)
      ensures r.Ok? <==> serviceProvider.Some? && serviceType in serviceProvider.value.registrations
      ensures r.Ok? ==> r.value == serviceProvider.value.registrations[serviceType]
    {
      var service := GetServiceOf(serviceType);
      if service.Err? {
        return Err(service.error);
      }
      if service.value.None? {
        return Err(NotRegistered);
      }
      r := Ok(service.value.value);
    }

    /**
     * `ConfigureServices`: reject null, then store the provider unless one
     * is already stored (the compare-and-exchange with `null`).
     */
    method ConfigureServices(p: Option<ServiceProvider<T, S>>) returns (r: Outcome<IocError>)
      modifies this
      ensures (serviceProvider, r) == Configure(old(serviceProvider), p)
    {
      if p.None? {
        return Fail(ArgumentNull);
      }
      var oldServices := serviceProvider;
      if oldServices.None? {
        serviceProvider := p;
      }
      if oldServices.Some? {
        return Fail(AlreadyConfigured);
      }
      r := Pass;
    }
  }
}
