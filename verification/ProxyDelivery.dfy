/** From the registry to the connections: what a sync of a registry's snapshot makes the
    proxy offer on each port. */
module ProxyDelivery {
  import opened Basics
  import Registry
  import RegistryState
  import opened Routing
  import opened Proxy
  import opened ProxyInvariant
  import opened ProxySafety
  import opened ProxyProgress
  import opened ProxyResync

  // ---- every desired port is listened on, or could not be ----

  /** A desired port has its listener, still waits for it, or just failed to get it. */
  lemma DesiredPortStep(s: State, a: SyncStep, d: Desired, p: int)
    requires EngineEnabled(s, a) && Settling(s, d) && !a.End? && p in d
    requires p in s.listeners || (s.sync.Listening? && p in s.sync.todo)
    ensures var s' := EngineApply(s, a);
            p in s'.listeners || (s'.sync.Listening? && p in s'.sync.todo) || a == ListenFail(p)
  {}

  /** The sync could not listen on the port. */
  ghost predicate FailedIn(r: Run, from: nat, until: nat, p: int) {
    exists m :: from < m < until && m < |r.actions| && r.actions[m] == Engine(ListenFail(p))
  }

  ghost predicate Provided(s: State, p: int) {
    p in s.listeners || (s.sync.Listening? && p in s.sync.todo)
  }

  lemma ProvidedStep(r: Run, from: nat, until: nat, routes: seq<RegistryState.ServiceRoute>, n: nat, p: int)
    requires r.FromInit() && QuietSync(r, from, until, routes) && from <= n < until && p in DesiredTable(routes)
    requires n > from ==> Provided(r.states[n], p)
    ensures Provided(r.states[n + 1], p) || (n > from && r.actions[n] == Engine(ListenFail(p)))
  {
    var a := r.actions[n].step;
    assert r.states[n + 1] == EngineApply(r.states[n], a);
    if n > from {
      SettlingLasts(r, from, until, routes, n);
      DesiredPortStep(r.states[n], a, DesiredTable(routes), p);
    }
  }

  lemma {:induction false} ProvidedUnlessFailed(
    r: Run, from: nat, until: nat, routes: seq<RegistryState.ServiceRoute>, n: nat, p: int)
    requires r.FromInit() && QuietSync(r, from, until, routes) && from < n <= until && p in DesiredTable(routes)
    ensures Provided(r.states[n], p) || FailedIn(r, from, n, p)
  {
    if n > from + 1 {
      ProvidedUnlessFailed(r, from, until, routes, n - 1, p);
    }
    if !FailedIn(r, from, n - 1, p) {
      ProvidedStep(r, from, until, routes, n - 1, p);
    }
  }

  lemma LastPorts(r: Run, from: nat, until: nat, routes: seq<RegistryState.ServiceRoute>)
    requires r.FromInit() && QuietSync(r, from, until, routes)
    ensures !r.states[until].sync.Listening? && r.states[until + 1].listeners == r.states[until].listeners
  {
    assert r.actions[until].step == End;
  }

  /** After a sync every port it wants has a listener, unless listening on it failed in that
      sync, and every listener is as the snapshot wants it. */
  lemma SyncProvides(r: Run, from: nat, until: nat, routes: seq<RegistryState.ServiceRoute>, p: int)
    requires r.FromInit() && QuietSync(r, from, until, routes)
    ensures p in DesiredTable(routes) ==> p in r.states[until + 1].listeners || FailedIn(r, from, until, p)
    ensures PortSettled(r.states[until + 1], DesiredTable(routes), p)
  {
    SyncSettles(r, from, until, routes);
    if p in DesiredTable(routes) {
      ProvidedUnlessFailed(r, from, until, routes, until, p);
      LastPorts(r, from, until, routes);
    }
  }

  // ---- what can be picked ----

  /** The listener on the port has the backend in the given state of health. */
  ghost predicate Has(s: State, p: int, b: Registry.BackendKey, health: Health) {
    && p in s.listeners && s.listeners[p] in s.instances
    && var entries := s.instances[s.listeners[p]].backends;
       exists k :: k in entries && entries[k] in s.backends
                   && s.backends[entries[k]].target == b && s.backends[entries[k]].health == health
  }

  lemma SameKey(b: Registry.BackendKey, c: Registry.BackendKey)
    requires KeyOf(b) == KeyOf(c)
    ensures b == c
  {
    HostPortKeyInjective(b.ip, b.port, c.ip, c.port);
  }

  /** The one entry that can hold the backend. */
  lemma HasByKey(s: State, p: int, b: Registry.BackendKey, health: Health)
    requires EntriesOk(s) && p in s.listeners && s.listeners[p] in s.instances
    ensures var entries := s.instances[s.listeners[p]].backends;
            Has(s, p, b, health)
            <==> KeyOf(b) in entries && entries[KeyOf(b)] in s.backends
                 && s.backends[entries[KeyOf(b)]].health == health
  {
    var l := s.listeners[p];
    var entries := s.instances[l].backends;
    if KeyOf(b) in entries {
      assert EntryOk(s, l, KeyOf(b));
      SameKey(s.backends[entries[KeyOf(b)]].target, b);
    }
    if Has(s, p, b, health) {
      var k :| k in entries && entries[k] in s.backends
               && s.backends[entries[k]].target == b && s.backends[entries[k]].health == health;
      assert EntryOk(s, l, k);
    }
  }

  lemma HeldByKey(targets: Targets, backends: set<Registry.BackendKey>, b: Registry.BackendKey)
    requires Holds(targets, backends)
    ensures b in backends <==> KeyOf(b) in targets
  {
    if KeyOf(b) in targets {
      SameKey(targets[KeyOf(b)], b);
    }
  }

  lemma SettledOffers(s: State, d: Desired, p: int, b: Registry.BackendKey)
    requires EntriesOk(s) && p in s.listeners && PortSettled(s, d, p)
    ensures Has(s, p, b, Active) <==> KeyOf(b) in Wanted(d, p) && !Has(s, p, b, Unhealthy)
  {
    HasByKey(s, p, b, Active);
    HasByKey(s, p, b, Unhealthy);
    var entries := s.instances[s.listeners[p]].backends;
    if KeyOf(b) in Wanted(d, p) {
      assert HealthIs(s, entries, KeyOf(b), Draining);
    } else if KeyOf(b) in entries {
      assert HealthIs(s, entries, KeyOf(b), Active);
    }
  }

  /** From registry to connections: after a sync of the snapshot of any registry in a
      reachable state, a backend can be picked on a port exactly if it belongs to the
      service that owns the port and is not marked unhealthy. */
  lemma OfferedAreOwned(r: Run, from: nat, until: nat, t: Registry.Table, routes: seq<RegistryState.ServiceRoute>,
                        p: int, b: Registry.BackendKey)
    requires r.FromInit() && QuietSync(r, from, until, routes)
    requires Registry.Inv(t) && RegistryState.IsSnapshot(t, routes) && p in r.states[until + 1].listeners
    ensures var s := r.states[until + 1];
            Has(s, p, b, Active)
            <==> p in t.usedPorts && b in t.services[t.usedPorts[p]].backends && !Has(s, p, b, Unhealthy)
  {
    SyncProvides(r, from, until, routes, p);
    RunInv(r, until + 1);
    SettledOffers(r.states[until + 1], DesiredTable(routes), p, b);
    DesiredMatchesRegistry(t, routes);
    if p in t.usedPorts {
      HeldByKey(DesiredTable(routes)[p], t.services[t.usedPorts[p]].backends, b);
    }
  }

  lemma OfferedByKey(s: State, p: int, b: Registry.BackendKey)
    requires EntriesOk(s) && p in s.listeners && s.listeners[p] in s.instances
    ensures Has(s, p, b, Active) <==> Offers(s, s.listeners[p], KeyOf(b))
  {
    HasByKey(s, p, b, Active);
  }

  lemma OfferHasBackend(s: State, p: int, k: string) returns (b: Registry.BackendKey)
    requires EntriesOk(s) && p in s.listeners && Offers(s, s.listeners[p], k)
    ensures Has(s, p, b, Active)
  {
    b := s.backends[s.instances[s.listeners[p]].backends[k]].target;
  }

  /** A connection that arrives then is turned away exactly if the port has no owner any more
      or each of the owner's backends is marked unhealthy. */
  lemma TurnedAwayIff(r: Run, from: nat, until: nat, t: Registry.Table, routes: seq<RegistryState.ServiceRoute>,
                      p: int, h: Id)
    requires r.FromInit() && QuietSync(r, from, until, routes)
    requires Registry.Inv(t) && RegistryState.IsSnapshot(t, routes) && p in r.states[until + 1].listeners
    requires h in r.states[until + 1].handlers
    requires r.states[until + 1].handlers[h] == Accepted(r.states[until + 1].listeners[p])
    ensures var s := r.states[until + 1];
            ConnEnabled(s, h, PickNone)
            <==> p !in t.usedPorts || forall b | b in t.services[t.usedPorts[p]].backends :: Has(s, p, b, Unhealthy)
  {
    var s := r.states[until + 1];
    SyncIsOver(r, from, until, routes);
    RunInv(r, until + 1);
    PicksWhatIsActive(r, until + 1, h);
    forall b
      ensures Offers(s, s.listeners[p], KeyOf(b))
              <==> p in t.usedPorts && b in t.services[t.usedPorts[p]].backends && !Has(s, p, b, Unhealthy)
    {
      OfferedAreOwned(r, from, until, t, routes, p, b);
      OfferedByKey(s, p, b);
    }
    if k :| Offers(s, s.listeners[p], k) {
      var b := OfferHasBackend(s, p, k);
      OfferedByKey(s, p, b);
    }
  }

  lemma SyncIsOver(r: Run, from: nat, until: nat, routes: seq<RegistryState.ServiceRoute>)
    requires r.FromInit() && QuietSync(r, from, until, routes)
    ensures r.states[until + 1].sync.Idle?
  {
    assert r.actions[until].step == End;
  }
}
