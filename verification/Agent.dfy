/** The Kubernetes agent: it diffs the endpoints it announced before against the current
    ones and tells the registry, registering before deregistering. */
module Agent {
  import opened Basics
  import opened Registry
  import RegistryState
  import opened Routing

  /** Endpoints of one resource, each under its "ip:port" key. */
  type Endpoints = map<string, BackendKey>

  datatype Subset = Subset(addresses: seq<string>, ports: seq<int>)

  ghost predicate InSubset(s: Subset, e: BackendKey) {
    e.ip in s.addresses && e.port in s.ports
  }

  /** Every address of a subset paired with every port of the same subset. */
  method ParseEndpoints(subsets: seq<Subset>) returns (out: Endpoints)
    ensures OwnKeys(out)
    ensures forall e :: KeyOf(e) in out <==> exists i :: 0 <= i < |subsets| && InSubset(subsets[i], e)
  {
    out := map[];
    ghost var seen: set<BackendKey> := {};
    for i := 0 to |subsets|
      invariant Filed(out, seen)
      invariant forall e :: e in seen <==> exists j :: 0 <= j < i && InSubset(subsets[j], e)
    {
      var s := subsets[i];
      ghost var before := seen;
      for a := 0 to |s.addresses|
        invariant Filed(out, seen)
        invariant forall e :: e in seen <==> e in before || (e.ip in s.addresses[..a] && e.port in s.ports)
      {
        ghost var outer := seen;
        for p := 0 to |s.ports|
          invariant Filed(out, seen)
          invariant forall e :: e in seen <==> e in outer || (e.ip == s.addresses[a] && e.port in s.ports[..p])
        {
          var e := BackendKey(s.addresses[a], s.ports[p]);
          FileOne(out, seen, e);
          out := out[KeyOf(e) := e];
          seen := seen + {e};
        }
      }
    }
    forall e
      ensures KeyOf(e) in out <==> e in seen
    {}
  }

  /** `m` files exactly the endpoints in `all`, each under its key. */
  ghost predicate Filed(m: Endpoints, all: set<BackendKey>) {
    OwnKeys(m) && forall e :: KeyOf(e) in m <==> e in all
  }

  lemma FileOne(m: Endpoints, all: set<BackendKey>, e: BackendKey)
    requires Filed(m, all)
    ensures Filed(m[KeyOf(e) := e], all + {e})
  {
    forall f | KeyOf(f) == KeyOf(e)
      ensures f == e
    {
      HostPortKeyInjective(f.ip, f.port, e.ip, e.port);
    }
  }

  // ---- what the registry holds for one service ----

  /** The endpoints of `m` whose keys `other` does not have: what a diff finds new. */
  function Fresh(m: Endpoints, other: Endpoints): set<BackendKey> {
    set k | k in m && k !in other :: m[k]
  }

  lemma FreshIsDifference(m: Endpoints, other: Endpoints)
    requires OwnKeys(m) && OwnKeys(other)
    ensures Fresh(m, other) == m.Values - other.Values
  {
    forall k | k in m && k in other
      ensures m[k] == other[k]
    {
      HostPortKeyInjective(m[k].ip, m[k].port, other[k].ip, other[k].port);
    }
    forall e | e in m.Values - other.Values
      ensures e in Fresh(m, other)
    {
      var k :| k in m && m[k] == e;
      assert k !in other;
    }
    forall e | e in Fresh(m, other)
      ensures e !in other.Values
    {
      var k :| k in m && k !in other && m[k] == e;
      assert forall j | j in other :: j == KeyOf(other[j]);
    }
  }

  datatype Identity = Identity(account: string, serviceName: string) {
    function Service(): string {
      ServiceKey(account, serviceName)
    }
  }

  function RegisterOp(id: Identity, requested: int, e: BackendKey): Entry {
    Entry(id.account, id.serviceName, "", "", requested, e.ip, e.port)
  }

  function DeregisterOp(id: Identity, e: BackendKey): Removal {
    Removal(id.account, id.serviceName, e.ip, e.port)
  }

  ghost predicate ValidEndpoint(e: BackendKey) {
    e.ip != "" && e.port > 0
  }

  ghost predicate ValidEndpoints(m: Endpoints) {
    OwnKeys(m) && forall k | k in m :: ValidEndpoint(m[k])
  }

  /** No service but the given one is affected. */
  ghost predicate OnlyService(t: Table, t': Table, service: string) {
    t'.services - {service} == t.services - {service}
  }

  /** Registering touches one service and adds one backend, or nothing on an error. */
  lemma RegisterEffect(t: Table, id: Identity, requested: int, e: BackendKey)
    requires Inv(t)
    ensures var (t', r) := AddBackend(t, RegisterOp(id, requested, e));
            && Inv(t')
            && BackendsOf(t', id.Service()) ==
               (if r.Ok? then BackendsOf(t, id.Service()) + {e} else BackendsOf(t, id.Service()))
            && OnlyService(t, t', id.Service())
  {
    AddInv(t, RegisterOp(id, requested, e));
    AddBackendEffect(t, RegisterOp(id, requested, e));
  }

  /** The registry turns down registrations of the service: it has another external port,
      or has none and the one asked for, or every one of the range from the hint on, is taken. */
  ghost predicate Refuses(t: Table, id: Identity, requested: int) {
    if id.Service() in t.services then requested > 0 && requested != t.services[id.Service()].externalPort
    else if requested > 0 then requested > MAX_PORT || requested in t.usedPorts
    else forall p | t.probe <= p <= t.maxPort :: p in t.usedPorts
  }

  lemma ReserveRefuses(t: Table, id: Identity, requested: int)
    requires Inv(t) && id.Service() !in t.services
    ensures Reserve(t, id.Service(), requested).1.Err? <==> Refuses(t, id, requested)
  {
    SecondScanIsRedundant(t);
  }

  /** A valid registration fails exactly if the registry refuses the service, and neither
      its failure nor its success changes that. */
  lemma RegisterFails(t: Table, id: Identity, requested: int, e: BackendKey)
    requires Inv(t) && ValidEndpoint(e) && id.serviceName != ""
    ensures var (t', r) := AddBackend(t, RegisterOp(id, requested, e));
            && (r.Err? <==> Refuses(t, id, requested))
            && (Refuses(t', id, requested) <==> Refuses(t, id, requested))
  {
    if id.Service() !in t.services {
      ReserveRefuses(t, id, requested);
      ReserveEffect(t, id.Service(), requested);
    }
    AddBackendEffect(t, RegisterOp(id, requested, e));
  }

  /** Deregistering a valid endpoint never fails and removes exactly that backend. */
  lemma DeregisterEffect(t: Table, id: Identity, e: BackendKey)
    requires Inv(t) && ValidEndpoint(e) && id.serviceName != ""
    ensures var (t', r) := RemoveBackend(t, DeregisterOp(id, e));
            && Inv(t') && r.Ok?
            && BackendsOf(t', id.Service()) == BackendsOf(t, id.Service()) - {e}
            && OnlyService(t, t', id.Service())
  {
    var (t', r) := RemoveBackend(t, DeregisterOp(id, e));
    RemoveInv(t, DeregisterOp(id, e));
    RemoveBackendEffect(t, DeregisterOp(id, e));
    var service := id.Service();
    assert BackendsOf(t', service) == BackendsOf(t, service) - {e};
  }

  // ---- the object ----

  class Watcher {
    const registry: RegistryState.State
    var known: map<string, Endpoints>

    constructor (registry: RegistryState.State)
      ensures this.registry == registry && known == map[]
    {
      this.registry := registry;
      known := map[];
    }

    function Known(key: string): Endpoints
      reads this
    {
      if key in known then known[key] else map[]
    }

    method RegisterOne(id: Identity, requested: int, e: BackendKey) returns (added: set<BackendKey>)
      requires Inv(registry.View())
      modifies registry
      ensures Inv(registry.View()) && OnlyService(old(registry.View()), registry.View(), id.Service())
      ensures added == {} || added == {e}
      ensures ValidEndpoint(e) && id.serviceName != "" ==>
                && (added == {} <==> old(Refuses(registry.View(), id, requested)))
                && (Refuses(registry.View(), id, requested) <==> old(Refuses(registry.View(), id, requested)))
      ensures BackendsOf(registry.View(), id.Service()) == old(BackendsOf(registry.View(), id.Service())) + added
    {
      RegisterEffect(registry.View(), id, requested, e);
      if ValidEndpoint(e) && id.serviceName != "" {
        RegisterFails(registry.View(), id, requested, e);
      }
      var r := registry.Register(id.account, id.serviceName, e.ip, e.port, requested);
      added := if r.Ok? then {e} else {};
    }

    method DeregisterOne(id: Identity, e: BackendKey)
      requires Inv(registry.View()) && id.serviceName != "" && ValidEndpoint(e)
      modifies registry
      ensures Inv(registry.View()) && OnlyService(old(registry.View()), registry.View(), id.Service())
      ensures BackendsOf(registry.View(), id.Service()) == old(BackendsOf(registry.View(), id.Service())) - {e}
    {
      DeregisterEffect(registry.View(), id, e);
      var r := registry.Deregister(id.account, id.serviceName, e.ip, e.port);
    }

    /** Registers the new endpoints one RPC at a time, in any order; an error is only logged.
        Of valid endpoints either all are accepted or, if the registry refuses the service, none. */
    method RegisterNew(id: Identity, requested: int, items: set<BackendKey>) returns (done: set<BackendKey>)
      requires Inv(registry.View())
      modifies registry
      ensures Inv(registry.View()) && OnlyService(old(registry.View()), registry.View(), id.Service())
      ensures done <= items
      ensures id.serviceName != "" && (forall e | e in items :: ValidEndpoint(e)) ==>
                done == if old(Refuses(registry.View(), id, requested)) then {} else items
      ensures BackendsOf(registry.View(), id.Service()) == old(BackendsOf(registry.View(), id.Service())) + done
    {
      done := {};
      var todo := items;
      ghost var valid := id.serviceName != "" && forall e | e in items :: ValidEndpoint(e);
      while todo != {}
        invariant Inv(registry.View()) && OnlyService(old(registry.View()), registry.View(), id.Service())
        invariant todo <= items && done <= items
        invariant valid ==>
                    && (Refuses(registry.View(), id, requested) <==> old(Refuses(registry.View(), id, requested)))
                    && done == if old(Refuses(registry.View(), id, requested)) then {} else items - todo
        invariant BackendsOf(registry.View(), id.Service()) == old(BackendsOf(registry.View(), id.Service())) + done
        decreases todo
      {
        var e :| e in todo;
        todo := todo - {e};
        var added := RegisterOne(id, requested, e);
        done := done + added;
      }
    }

    /** Deregisters the stale endpoints one RPC at a time, in any order. */
    method DeregisterEach(id: Identity, items: set<BackendKey>)
      requires Inv(registry.View()) && id.serviceName != "" && forall e | e in items :: ValidEndpoint(e)
      modifies registry
      ensures Inv(registry.View()) && OnlyService(old(registry.View()), registry.View(), id.Service())
      ensures BackendsOf(registry.View(), id.Service()) == old(BackendsOf(registry.View(), id.Service())) - items
    {
      var todo := items;
      while todo != {}
        invariant Inv(registry.View()) && OnlyService(old(registry.View()), registry.View(), id.Service())
        invariant todo <= items
        invariant BackendsOf(registry.View(), id.Service())
                  == old(BackendsOf(registry.View(), id.Service())) - (items - todo)
        decreases todo
      {
        var e :| e in todo;
        todo := todo - {e};
        DeregisterOne(id, e);
      }
    }

    /** One add, update or (when not exposed) unexpose event.  If the registry agreed with
        what was known before, it disagrees with the new endpoints afterwards exactly when
        there were endpoints to register and it refuses the service; `known` is updated
        either way. */
    method Reconcile(key: string, id: Identity, requested: int, exposed: bool, parsed: Endpoints)
      requires Inv(registry.View()) && id.serviceName != ""
      requires ValidEndpoints(parsed) && ValidEndpoints(Known(key))
      modifies this, registry
      ensures Inv(registry.View()) && OnlyService(old(registry.View()), registry.View(), id.Service())
      ensures known == if exposed then old(known)[key := parsed] else old(known) - {key}
      ensures old(BackendsOf(registry.View(), id.Service()) == Known(key).Values) ==>
                (BackendsOf(registry.View(), id.Service()) != Known(key).Values
                 <==> exposed && old(parsed.Values - Known(key).Values != {}
                                     && Refuses(registry.View(), id, requested)))
    {
      if !exposed {
        DeregisterAll(key, id);
        return;
      }
      var before := Known(key);
      FreshIsDifference(parsed, before);
      FreshIsDifference(before, parsed);
      var done := RegisterNew(id, requested, Fresh(parsed, before));
      DeregisterEach(id, Fresh(before, parsed));
      known := known[key := parsed];
      DiffIff(before.Values, parsed.Values, done);
    }

    /** Deletion, or an event that withdraws the intent to expose. */
    method DeregisterAll(key: string, id: Identity)
      requires Inv(registry.View()) && id.serviceName != "" && ValidEndpoints(Known(key))
      modifies this, registry
      ensures Inv(registry.View()) && OnlyService(old(registry.View()), registry.View(), id.Service())
      ensures known == old(known) - {key}
      ensures old(BackendsOf(registry.View(), id.Service()) == Known(key).Values) ==>
                BackendsOf(registry.View(), id.Service()) == {}
    {
      DeregisterEach(id, Known(key).Values);
      known := known - {key};
    }
  }

  lemma DiffIff<T>(before: set<T>, after: set<T>, done: set<T>)
    requires done <= after - before
    ensures before + done - (before - after) == after <==> done == after - before
  {
    if done != after - before {
      var x :| x in after - before && x !in done;
      assert x !in before + done;
    }
  }
}
