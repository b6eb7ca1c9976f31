/** The distributed cache gateway: each public call either does nothing (its guard finds nothing to
    do), or reads the server registrar's registrations, resolves the cache refresher by its GUID
    (throwing ArgumentException when none is registered) and hands both, with the payload, to the
    server messenger. The registrar and the messenger are collaborators, so the model records what
    each call asks of them, in the order the call asks it. */
module DistributedCaching {
  import opened Text

  /** A 128-bit GUID; Guid.Empty is the all-zero one. */
  datatype Guid = Guid(bits: bv128)

  const EMPTY_GUID := Guid(0)

  /** A registered ICacheRefresher, known to the gateway by its unique identifier. */
  datatype CacheRefresher = CacheRefresher(uniqueIdentifier: Guid, name: string)

  /** An IServerAddress of the load-balanced farm. */
  datatype ServerAddress = ServerAddress(serverAddress: string)

  /** The ArgumentException of GetRefresherById. */
  datatype ArgumentException = NotARegisteredCacheRefresher(uniqueIdentifier: Guid)

  /** One call of the gateway's public surface, with its arguments. A getNumericId delegate that may
      be null is an Option; a jsonPayload that may be null is an Option. */
  datatype Call<!T> =
    | RefreshMany(factoryGuid: Guid, getNumericId: Option<T -> int>, instances: seq<T>)
    | RefreshById(factoryGuid: Guid, id: int)
    | RefreshByGuid(factoryGuid: Guid, guid: Guid)
    | RefreshByJson(factoryGuid: Guid, jsonPayload: Option<string>)
    | RefreshAll(factoryGuid: Guid)
    | RefreshAllOn(factoryGuid: Guid, allServers: bool)
    | RemoveById(factoryGuid: Guid, id: int)
    | RemoveMany(factoryGuid: Guid, getNumericId: Option<T -> int>, instances: seq<T>)

  /** One call received by the server messenger. The numeric ids of a batch are those the delegate
      gives the instances; None stands for a null delegate, which Remove<T> passes on unchecked. */
  datatype MessengerCall =
    | PerformRefreshMany(servers: seq<ServerAddress>, refresher: CacheRefresher, numericIds: seq<int>)
    | PerformRefreshById(servers: seq<ServerAddress>, refresher: CacheRefresher, id: int)
    | PerformRefreshByGuid(servers: seq<ServerAddress>, refresher: CacheRefresher, guid: Guid)
    | PerformRefreshByJson(servers: seq<ServerAddress>, refresher: CacheRefresher, jsonPayload: string)
    | PerformRefreshAll(servers: seq<ServerAddress>, refresher: CacheRefresher)
    | PerformRemoveById(servers: seq<ServerAddress>, refresher: CacheRefresher, id: int)
    | PerformRemoveMany(servers: seq<ServerAddress>, refresher: CacheRefresher, removedIds: Option<seq<int>>)

  /** What a call asks of a collaborator: the registrar's current registrations, or a messenger call. */
  datatype Interaction = RegistrationsRead | Messenger(call: MessengerCall)

  /** The whole effect of one gateway call: its interactions in order, and the exception it throws. */
  datatype Effect = Effect(trace: seq<Interaction>, thrown: Option<ArgumentException>)

  /** The ids getNumericId gives the instances, in order. */
  function NumericIds<T>(getNumericId: T -> int, instances: seq<T>): (ids: seq<int>)
    ensures |ids| == |instances|
    ensures forall i :: 0 <= i < |instances| ==> ids[i] == getNumericId(instances[i])
  {
    seq(|instances|, i requires 0 <= i < |instances| => getNumericId(instances[i]))
  }

  /** The early-return guard of each public call: true when the call has nothing to do.
      Remove<T> has no guard. */
  function IsNothingToDo<T>(call: Call<T>): (r: bool)
    // the empty GUID stops every call but Remove<T>, which nothing stops
    ensures call.RemoveMany? ==> !r
    ensures !call.RemoveMany? && call.factoryGuid == EMPTY_GUID ==> r
    // the two RefreshAll overloads are stopped by the empty GUID only
    ensures call.RefreshAll? || call.RefreshAllOn? ==> (r <==> call.factoryGuid == EMPTY_GUID)
  {
    match call
    case RefreshMany(g, getNumericId, instances) => g == EMPTY_GUID || |instances| == 0 || getNumericId.None?
    case RefreshById(g, id) => g == EMPTY_GUID || id == 0
    case RefreshByGuid(g, guid) => g == EMPTY_GUID || guid == EMPTY_GUID
    case RefreshByJson(g, jsonPayload) => g == EMPTY_GUID || IsNullOrWhiteSpace(jsonPayload)
    case RefreshAll(g) => g == EMPTY_GUID
    case RefreshAllOn(g, _) => g == EMPTY_GUID
    case RemoveById(g, id) => g == EMPTY_GUID || id == 0
    case RemoveMany(_, _, _) => false
  }

  /** Whether a call that gets past its guard reads the registrar: all but RefreshAll(g, false),
      which targets no server but the current one. */
  predicate ReadsRegistrations<T>(call: Call<T>)
  {
    !(call.RefreshAllOn? && !call.allServers)
  }

  /** GetRefresherById: the refresher registered under the GUID, else an ArgumentException. */
  function GetRefresherById(refreshers: map<Guid, CacheRefresher>, uniqueIdentifier: Guid): (r: Result<CacheRefresher, ArgumentException>)
    ensures r.Success? <==> uniqueIdentifier in refreshers
    ensures r.Success? ==> r.value == refreshers[uniqueIdentifier]
    ensures r.Failure? ==> r.error == NotARegisteredCacheRefresher(uniqueIdentifier)
  {
    if uniqueIdentifier in refreshers then Success(refreshers[uniqueIdentifier])
    else Failure(NotARegisteredCacheRefresher(uniqueIdentifier))
  }

  /** The messenger operation that serves a call, with the call's own payload: a refresh for a
      refresh and a removal for a removal; the id, the GUID or the JSON the call was given; for a
      batch, the id its delegate gives each instance, in order, or nothing for the null delegate a
      batch removal passes on. */
  predicate Carries<T>(m: MessengerCall, call: Call<T>)
  {
    match call
    case RefreshMany(_, getNumericId, instances) =>
      && m.PerformRefreshMany? && getNumericId.Some? && |m.numericIds| == |instances|
      && forall i :: 0 <= i < |instances| ==> m.numericIds[i] == getNumericId.value(instances[i])
    case RefreshById(_, id) => m.PerformRefreshById? && m.id == id
    case RefreshByGuid(_, guid) => m.PerformRefreshByGuid? && m.guid == guid
    case RefreshByJson(_, jsonPayload) => m.PerformRefreshByJson? && jsonPayload == Some(m.jsonPayload)
    case RefreshAll(_) => m.PerformRefreshAll?
    case RefreshAllOn(_, _) => m.PerformRefreshAll?
    case RemoveById(_, id) => m.PerformRemoveById? && m.id == id
    case RemoveMany(_, getNumericId, instances) =>
      && m.PerformRemoveMany? && (m.removedIds.Some? <==> getNumericId.Some?)
      && (m.removedIds.Some? ==>
            && |m.removedIds.value| == |instances|
            && forall i :: 0 <= i < |instances| ==> m.removedIds.value[i] == getNumericId.value(instances[i]))
  }

  /** The messenger call a guarded-through call makes, given the servers and the resolved refresher. */
  function MessengerCallFor<T>(call: Call<T>, servers: seq<ServerAddress>, refresher: CacheRefresher): (m: MessengerCall)
    requires !IsNothingToDo(call) && !call.RefreshAll?
    ensures m.servers == servers && m.refresher == refresher
    ensures Carries(m, call)
  {
    match call
    case RefreshMany(_, getNumericId, instances) => PerformRefreshMany(servers, refresher, NumericIds(getNumericId.value, instances))
    case RefreshById(_, id) => PerformRefreshById(servers, refresher, id)
    case RefreshByGuid(_, guid) => PerformRefreshByGuid(servers, refresher, guid)
    case RefreshByJson(_, jsonPayload) => PerformRefreshByJson(servers, refresher, jsonPayload.value)
    case RefreshAllOn(_, _) => PerformRefreshAll(servers, refresher)
    case RemoveById(_, id) => PerformRemoveById(servers, refresher, id)
    case RemoveMany(_, getNumericId, instances) =>
      PerformRemoveMany(servers, refresher, if getNumericId.Some? then Some(NumericIds(getNumericId.value, instances)) else None)
  }

  /** What one public call does against a refresher registry and the registrar's registrations.
      The registrations are read before the refresher is resolved, as the source evaluates the
      messenger call's arguments in that order. */
  function Dispatch<T>(refreshers: map<Guid, CacheRefresher>, registrations: seq<ServerAddress>, call: Call<T>): (e: Effect)
    decreases if call.RefreshAll? then 1 else 0
    // nothing to do: no interaction at all, and no exception
    ensures IsNothingToDo(call) ==> e == Effect([], None)
    // otherwise an exception exactly when the GUID is not registered, and then no messenger call
    ensures !IsNothingToDo(call) ==> (e.thrown.Some? <==> call.factoryGuid !in refreshers)
    ensures e.thrown.Some? ==>
      && e.thrown.value == NotARegisteredCacheRefresher(call.factoryGuid)
      && e.trace == (if ReadsRegistrations(call) then [RegistrationsRead] else [])
    // otherwise exactly one messenger call, last, carrying the registered refresher and the servers
    ensures !IsNothingToDo(call) && call.factoryGuid in refreshers ==>
      && |e.trace| >= 1 && e.trace[|e.trace| - 1].Messenger?
      && e.trace[..|e.trace| - 1] == (if ReadsRegistrations(call) then [RegistrationsRead] else [])
      && e.trace[|e.trace| - 1].call.refresher == refreshers[call.factoryGuid]
      && e.trace[|e.trace| - 1].call.servers == (if ReadsRegistrations(call) then registrations else [])
  {
    if IsNothingToDo(call) then Effect([], None)
    else if call.RefreshAll? then Dispatch<T>(refreshers, registrations, RefreshAllOn(call.factoryGuid, true))
    else
      var asked := if ReadsRegistrations(call) then [RegistrationsRead] else [];
      var servers := if ReadsRegistrations(call) then registrations else [];
      match GetRefresherById(refreshers, call.factoryGuid)
      case Failure(ex) => Effect(asked, Some(ex))
      case Success(refresher) => Effect(asked + [Messenger(MessengerCallFor(call, servers, refresher))], None)
  }

  /** The gateway. The refresher registry and the registrar are read, never written, by it; the
      interactions field is the record of what the registrar and the messenger were asked. */
  class DistributedCache {
    const refreshers: map<Guid, CacheRefresher>
    var registrations: seq<ServerAddress>
    var interactions: seq<Interaction>

    constructor (refreshers: map<Guid, CacheRefresher>, registrations: seq<ServerAddress>)
      ensures this.refreshers == refreshers && this.registrations == registrations
      ensures interactions == []
    {
      this.refreshers := refreshers;
      this.registrations := registrations;
      interactions := [];
    }

    /** ServerRegistrarResolver.Current.Registrar.Registrations. */
    method ReadRegistrations() returns (servers: seq<ServerAddress>)
      modifies this`interactions
      ensures servers == registrations
      ensures interactions == old(interactions) + [RegistrationsRead]
    {
      servers := registrations;
      interactions := interactions + [RegistrationsRead];
    }

    /** Hands one call to ServerMessengerResolver.Current.Messenger. */
    method Send(m: MessengerCall)
      modifies this`interactions
      ensures interactions == old(interactions) + [Messenger(m)]
    {
      interactions := interactions + [Messenger(m)];
    }

    method Refresh<T>(factoryGuid: Guid, getNumericId: Option<T -> int>, instances: seq<T>) returns (thrown: Option<ArgumentException>)
      modifies this`interactions
      ensures var e := Dispatch(refreshers, registrations, RefreshMany(factoryGuid, getNumericId, instances));
        interactions == old(interactions) + e.trace && thrown == e.thrown
    {
      if factoryGuid == EMPTY_GUID || |instances| == 0 || getNumericId.None? { return None; }
      var servers := ReadRegistrations();
      var refresher := GetRefresherById(refreshers, factoryGuid);
      if refresher.Failure? { return Some(refresher.error); }
      Send(PerformRefreshMany(servers, refresher.value, NumericIds(getNumericId.value, instances)));
      thrown := None;
    }

    method RefreshById(factoryGuid: Guid, id: int) returns (thrown: Option<ArgumentException>)
      modifies this`interactions
      ensures var e := Dispatch<int>(refreshers, registrations, Call.RefreshById(factoryGuid, id));
        interactions == old(interactions) + e.trace && thrown == e.thrown
    {
      if factoryGuid == EMPTY_GUID || id == 0 { return None; }
      var servers := ReadRegistrations();
      var refresher := GetRefresherById(refreshers, factoryGuid);
      if refresher.Failure? { return Some(refresher.error); }
      Send(PerformRefreshById(servers, refresher.value, id));
      thrown := None;
    }

    method RefreshByGuid(factoryGuid: Guid, id: Guid) returns (thrown: Option<ArgumentException>)
      modifies this`interactions
      ensures var e := Dispatch<int>(refreshers, registrations, Call.RefreshByGuid(factoryGuid, id));
        interactions == old(interactions) + e.trace && thrown == e.thrown
    {
      if factoryGuid == EMPTY_GUID || id == EMPTY_GUID { return None; }
      var servers := ReadRegistrations();
      var refresher := GetRefresherById(refreshers, factoryGuid);
      if refresher.Failure? { return Some(refresher.error); }
      Send(PerformRefreshByGuid(servers, refresher.value, id));
      thrown := None;
    }

    method RefreshByJson(factoryGuid: Guid, jsonPayload: Option<string>) returns (thrown: Option<ArgumentException>)
      modifies this`interactions
      ensures var e := Dispatch<int>(refreshers, registrations, Call.RefreshByJson(factoryGuid, jsonPayload));
        interactions == old(interactions) + e.trace && thrown == e.thrown
    {
      if factoryGuid == EMPTY_GUID || IsNullOrWhiteSpace(jsonPayload) { return None; }
      var servers := ReadRegistrations();
      var refresher := GetRefresherById(refreshers, factoryGuid);
      if refresher.Failure? { return Some(refresher.error); }
      Send(PerformRefreshByJson(servers, refresher.value, jsonPayload.value));
      thrown := None;
    }

    method RefreshAll(factoryGuid: Guid) returns (thrown: Option<ArgumentException>)
      modifies this`interactions
      ensures var e := Dispatch<int>(refreshers, registrations, Call.RefreshAll(factoryGuid));
        interactions == old(interactions) + e.trace && thrown == e.thrown
    {
      if factoryGuid == EMPTY_GUID { return None; }
      thrown := RefreshAllOn(factoryGuid, true);
    }

    /** RefreshAll(factoryGuid, allServers): with allServers false the messenger gets no server,
        so that only the current server refreshes. */
    method RefreshAllOn(factoryGuid: Guid, allServers: bool) returns (thrown: Option<ArgumentException>)
      modifies this`interactions
      ensures var e := Dispatch<int>(refreshers, registrations, Call.RefreshAllOn(factoryGuid, allServers));
        interactions == old(interactions) + e.trace && thrown == e.thrown
    {
      if factoryGuid == EMPTY_GUID { return None; }
      var servers: seq<ServerAddress> := [];
      if allServers {
        servers := ReadRegistrations();
      }
      var refresher := GetRefresherById(refreshers, factoryGuid);
      if refresher.Failure? { return Some(refresher.error); }
      Send(PerformRefreshAll(servers, refresher.value));
      thrown := None;
    }

    method RemoveById(factoryGuid: Guid, id: int) returns (thrown: Option<ArgumentException>)
      modifies this`interactions
      ensures var e := Dispatch<int>(refreshers, registrations, Call.RemoveById(factoryGuid, id));
        interactions == old(interactions) + e.trace && thrown == e.thrown
    {
      if factoryGuid == EMPTY_GUID || id == 0 { return None; }
      var servers := ReadRegistrations();
      var refresher := GetRefresherById(refreshers, factoryGuid);
      if refresher.Failure? { return Some(refresher.error); }
      Send(PerformRemoveById(servers, refresher.value, id));
      thrown := None;
    }

    /** Remove<T>: no guard, not even against an empty GUID, a null delegate or an empty batch. */
    method Remove<T>(factoryGuid: Guid, getNumericId: Option<T -> int>, instances: seq<T>) returns (thrown: Option<ArgumentException>)
      modifies this`interactions
      ensures var e := Dispatch(refreshers, registrations, RemoveMany(factoryGuid, getNumericId, instances));
        interactions == old(interactions) + e.trace && thrown == e.thrown
    {
      var servers := ReadRegistrations();
      var refresher := GetRefresherById(refreshers, factoryGuid);
      if refresher.Failure? { return Some(refresher.error); }
      var numericIds := if getNumericId.Some? then Some(NumericIds(getNumericId.value, instances)) else None;
      Send(PerformRemoveMany(servers, refresher.value, numericIds));
      thrown := None;
    }
  }

  /** The messenger call a call past its guard makes for a registered GUID is the operation that
      serves the call, with the call's own payload. */
  lemma DispatchCarriesCall<T>(refreshers: map<Guid, CacheRefresher>, registrations: seq<ServerAddress>, call: Call<T>)
    requires !IsNothingToDo(call) && call.factoryGuid in refreshers
    ensures var e := Dispatch(refreshers, registrations, call);
      |e.trace| >= 1 && e.trace[|e.trace| - 1].Messenger? && Carries(e.trace[|e.trace| - 1].call, call)
    decreases if call.RefreshAll? then 1 else 0
  {
    if call.RefreshAll? {
      DispatchCarriesCall<T>(refreshers, registrations, RefreshAllOn(call.factoryGuid, true));
    } else {
      var servers := if ReadsRegistrations(call) then registrations else [];
      var m := MessengerCallFor(call, servers, refreshers[call.factoryGuid]);
      var e := Dispatch(refreshers, registrations, call);
      assert e.trace[|e.trace| - 1] == Messenger(m);
    }
  }

  /** RefreshAll(g) is RefreshAll(g, true), whatever the registry and the registrations. */
  lemma RefreshAllIsRefreshAllOnAllServers(refreshers: map<Guid, CacheRefresher>, registrations: seq<ServerAddress>, g: Guid)
    ensures Dispatch<int>(refreshers, registrations, Call.RefreshAll(g))
         == Dispatch<int>(refreshers, registrations, RefreshAllOn(g, true))
  {
  }

  /** RefreshAll(g, false) never consults the registrar: its effect is the same whatever the
      registrations, and a messenger call it makes targets no server. */
  lemma RefreshAllLocalIgnoresRegistrar(refreshers: map<Guid, CacheRefresher>, registrations: seq<ServerAddress>, g: Guid)
    requires g != EMPTY_GUID && g in refreshers
    ensures Dispatch<int>(refreshers, registrations, RefreshAllOn(g, false))
         == Effect([Messenger(PerformRefreshAll([], refreshers[g]))], None)
  {
  }

  /** Remove<T> is never a no-op: even with the empty GUID, a null delegate and no instances it reads
      the registrations and resolves the refresher, and so throws unless the empty GUID is registered. */
  lemma RemoveManyHasNoGuard<T>(refreshers: map<Guid, CacheRefresher>, registrations: seq<ServerAddress>)
    requires EMPTY_GUID !in refreshers
    ensures Dispatch<T>(refreshers, registrations, RemoveMany(EMPTY_GUID, None, []))
         == Effect([RegistrationsRead], Some(NotARegisteredCacheRefresher(EMPTY_GUID)))
    ensures Dispatch<T>(refreshers, registrations, Call.RemoveById(EMPTY_GUID, 0)) == Effect([], None)
  {
  }

  /** Refreshing one registered refresher for id 42 in a farm of two servers makes exactly one
      messenger call, to both servers, with the refresher and the id. */
  lemma RefreshByIdReachesEveryServer(r1: CacheRefresher, a: ServerAddress, b: ServerAddress)
    requires r1.uniqueIdentifier != EMPTY_GUID
    ensures Dispatch<int>(map[r1.uniqueIdentifier := r1], [a, b], Call.RefreshById(r1.uniqueIdentifier, 42))
         == Effect([RegistrationsRead, Messenger(PerformRefreshById([a, b], r1, 42))], None)
  {
  }
}
