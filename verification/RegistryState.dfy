/** The registry object: fields updated in place, each method proved against the
    corresponding function of module Registry. */
module RegistryState {
  import opened Basics
  import opened Registry

  /** One line of the /services document. */
  datatype ServiceRoute = ServiceRoute(account: string, serviceName: string, protocol: string,
                                       description: string, externalPort: int, backends: seq<BackendKey>)

  predicate BackendLess(a: BackendKey, b: BackendKey) {
    if a.ip == b.ip then a.port < b.port else StrLess(a.ip, b.ip)
  }

  predicate RouteLess(a: ServiceRoute, b: ServiceRoute) {
    if a.account == b.account then
      if a.serviceName == b.serviceName then a.externalPort < b.externalPort
      else StrLess(a.serviceName, b.serviceName)
    else StrLess(a.account, b.account)
  }

  lemma StrChain(a: string, b: string, c: string)
    ensures !StrLess(b, a) && !StrLess(c, b) ==> !StrLess(c, a) && (a == c ==> a == b)
  {
    StrLessTotal(a, b);
    StrLessTotal(b, c);
    StrLessTotal(a, c);
    if StrLess(a, b) && StrLess(b, c) {
      StrLessTransitive(a, b, c);
    }
  }

  lemma BackendLessOrders()
    ensures WeakOrder(BackendLess)
  {
    forall a, b
      ensures !(BackendLess(a, b) && BackendLess(b, a))
    {
      StrLessTotal(a.ip, b.ip);
    }
    forall a, b, c | Chain(a, b, c) && !BackendLess(b, a) && !BackendLess(c, b)
      ensures !BackendLess(c, a)
    {
      StrChain(a.ip, b.ip, c.ip);
    }
  }

  lemma RouteLessOrders()
    ensures WeakOrder(RouteLess)
  {
    forall a, b
      ensures !(RouteLess(a, b) && RouteLess(b, a))
    {
      StrLessTotal(a.account, b.account);
      StrLessTotal(a.serviceName, b.serviceName);
    }
    forall a, b, c | Chain(a, b, c) && !RouteLess(b, a) && !RouteLess(c, b)
      ensures !RouteLess(c, a)
    {
      StrChain(a.account, b.account, c.account);
      StrChain(a.serviceName, b.serviceName, c.serviceName);
    }
  }

  // ---- what a snapshot must be ----

  /** The backends of one service, each once, in increasing (ip, port) order. */
  ghost predicate ListsBackends(backends: set<BackendKey>, list: seq<BackendKey>) {
    && (forall i, j | 0 <= i < j < |list| ::
          StrLess(list[i].ip, list[j].ip) || (list[i].ip == list[j].ip && list[i].port < list[j].port))
    && (forall b :: b in list <==> b in backends)
  }

  ghost predicate RouteOf(rec: Record, r: ServiceRoute) {
    && r.account == rec.account && r.serviceName == rec.serviceName
    && r.protocol == rec.protocol && r.description == rec.description
    && r.externalPort == rec.externalPort
    && ListsBackends(rec.backends, r.backends)
  }

  predicate NameLess(a: ServiceRoute, b: ServiceRoute) {
    if a.account == b.account then StrLess(a.serviceName, b.serviceName) else StrLess(a.account, b.account)
  }

  function RouteKey(r: ServiceRoute): string {
    r.account + "/" + r.serviceName
  }

  /** Every service exactly once, in strictly increasing (account, name) order. */
  ghost predicate IsSnapshot(t: Table, routes: seq<ServiceRoute>) {
    && (forall i, j | 0 <= i < j < |routes| :: NameLess(routes[i], routes[j]))
    && (forall i | 0 <= i < |routes| ::
          RouteKey(routes[i]) in t.services && RouteOf(t.services[RouteKey(routes[i])], routes[i]))
    && (forall k | k in t.services :: exists i :: 0 <= i < |routes| && RouteKey(routes[i]) == k)
  }

  lemma NameLessAsymmetric()
    ensures Asymmetric(NameLess)
  {
    forall a, b
      ensures !(NameLess(a, b) && NameLess(b, a))
    {
      StrLessTotal(a.account, b.account);
      StrLessTotal(a.serviceName, b.serviceName);
    }
  }

  lemma ListedIsSorted(backends: set<BackendKey>, list: seq<BackendKey>)
    requires ListsBackends(backends, list)
    ensures StrictlySorted(BackendLess, list)
  {
    forall i, j | 0 <= i < j < |list|
      ensures BackendLess(list[i], list[j])
    {
      StrLessTotal(list[i].ip, list[j].ip);
    }
  }

  lemma BackendListUnique(backends: set<BackendKey>, a: seq<BackendKey>, b: seq<BackendKey>)
    requires ListsBackends(backends, a) && ListsBackends(backends, b)
    ensures a == b
  {
    BackendLessOrders();
    ListedIsSorted(backends, a);
    ListedIsSorted(backends, b);
    StrictListingUnique(BackendLess, a, b);
  }

  lemma SnapshotElements(t: Table, a: seq<ServiceRoute>, b: seq<ServiceRoute>, r: ServiceRoute)
    requires IsSnapshot(t, a) && IsSnapshot(t, b) && r in a
    ensures r in b
  {
    var k := RouteKey(r);
    var i :| 0 <= i < |b| && RouteKey(b[i]) == k;
    BackendListUnique(t.services[k].backends, r.backends, b[i].backends);
  }

  /** The snapshot is a function of the table: whatever order the maps were iterated in,
      the document is the same. */
  lemma SnapshotUnique(t: Table, a: seq<ServiceRoute>, b: seq<ServiceRoute>)
    requires IsSnapshot(t, a) && IsSnapshot(t, b)
    ensures a == b
  {
    forall r
      ensures r in a <==> r in b
    {
      if r in a { SnapshotElements(t, a, b, r); }
      if r in b { SnapshotElements(t, b, a, r); }
    }
    NameLessAsymmetric();
    StrictListingUnique(NameLess, a, b);
  }

  lemma RouteKeysDistinct(t: Table, routes: seq<ServiceRoute>, i: nat, j: nat)
    requires IsSnapshot(t, routes) && i < j < |routes|
    ensures RouteKey(routes[i]) != RouteKey(routes[j])
  {
    NameLessAsymmetric();
    assert NameLess(routes[i], routes[j]);
  }

  /** Deletes the addressed backends one by one. */
  method Without(backends: set<BackendKey>, ip: string, port: int) returns (kept: set<BackendKey>)
    ensures forall b :: b in kept <==> b in backends && !(if port > 0 then b == BackendKey(ip, port) else b.ip == ip)
    ensures kept == backends - Doomed(backends, ip, port)
  {
    kept := backends;
    if port > 0 {
      kept := backends - {BackendKey(ip, port)};
    } else {
      var todo := backends;
      while todo != {}
        invariant todo <= backends
        invariant kept == backends - Doomed(backends - todo, ip, port)
        decreases todo
      {
        var b :| b in todo;
        todo := todo - {b};
        if b.ip == ip {
          kept := kept - {b};
        }
      }
      assert backends - todo == backends;
    }
  }

  // ---- collecting and sorting ----

  lemma {:induction false} DistinctCounts<T>(s: seq<T>)
    ensures Distinct(s) <==> forall x :: multiset(s)[x] <= 1
  {
    if s != [] {
      var n := |s| - 1;
      var init, last := s[..n], s[n];
      DistinctCounts(init);
      assert s == init + [last];
      assert multiset(s) == multiset(init) + multiset{last};
      if Distinct(s) {
        assert last !in init;
        assert Distinct(init);
      } else if !Distinct(init) {
        var x :| multiset(init)[x] > 1;
        assert multiset(s)[x] > 1;
      } else {
        var i, j :| 0 <= i < j < |s| && s[i] == s[j];
        assert j == n && init[i] == last;
        assert multiset(s)[last] > 1;
      }
    }
  }

  lemma SameElements<T>(a: seq<T>, b: seq<T>)
    requires multiset(a) == multiset(b)
    ensures forall x :: x in a <==> x in b
    ensures Distinct(a) <==> Distinct(b)
  {
    forall x
      ensures x in a <==> x in b
    {
      assert x in multiset(a) <==> x in multiset(b);
    }
    DistinctCounts(a);
    DistinctCounts(b);
  }

  lemma SortedDistinctIsStrict(found: seq<BackendKey>, list: seq<BackendKey>)
    requires Distinct(found) && multiset(list) == multiset(found) && SortedBy(BackendLess, list)
    ensures forall i, j | 0 <= i < j < |list| :: BackendLess(list[i], list[j])
    ensures forall b :: b in list <==> b in found
  {
    SameElements(found, list);
    forall i, j | 0 <= i < j < |list|
      ensures BackendLess(list[i], list[j])
    {
      assert list[i] != list[j] && !BackendLess(list[j], list[i]);
      StrLessTotal(list[i].ip, list[j].ip);
    }
  }

  /** One route for each of the distinct keys of `order`. */
  ghost predicate Collected(services: map<string, Record>, order: seq<string>, found: seq<ServiceRoute>) {
    && |order| == |found| && Distinct(order)
    && forall i | 0 <= i < |order| ::
         order[i] in services && RouteKey(found[i]) == order[i] && RouteOf(services[order[i]], found[i])
  }

  lemma SortedRoutesAreSnapshot(t: Table, order: seq<string>, found: seq<ServiceRoute>, routes: seq<ServiceRoute>)
    requires Collected(t.services, order, found)
    requires forall k | k in t.services :: k in order
    requires multiset(routes) == multiset(found) && SortedBy(RouteLess, routes)
    ensures IsSnapshot(t, routes)
  {
    assert forall i, j | 0 <= i < j < |found| :: RouteKey(found[i]) == order[i] && RouteKey(found[j]) == order[j];
    assert Distinct(found);
    SameElements(found, routes);
    forall i | 0 <= i < |routes|
      ensures RouteKey(routes[i]) in t.services && RouteOf(t.services[RouteKey(routes[i])], routes[i])
    {
      assert routes[i] in found;
    }
    forall k | k in t.services
      ensures exists i :: 0 <= i < |routes| && RouteKey(routes[i]) == k
    {
      var i :| 0 <= i < |order| && order[i] == k;
      assert found[i] in routes;
    }
    forall i, j | 0 <= i < j < |routes|
      ensures NameLess(routes[i], routes[j])
    {
      DistinctKeys(found, routes, i, j);
      StrLessTotal(routes[i].account, routes[j].account);
      StrLessTotal(routes[i].serviceName, routes[j].serviceName);
    }
  }

  lemma DistinctKeys(found: seq<ServiceRoute>, routes: seq<ServiceRoute>, i: nat, j: nat)
    requires forall i, j | 0 <= i < j < |found| :: RouteKey(found[i]) != RouteKey(found[j])
    requires forall x :: x in routes <==> x in found
    requires Distinct(routes) && i < j < |routes|
    ensures RouteKey(routes[i]) != RouteKey(routes[j])
  {
    assert routes[i] in found && routes[j] in found;
    var a :| 0 <= a < |found| && found[a] == routes[i];
    var b :| 0 <= b < |found| && found[b] == routes[j];
    assert a != b;
  }

  method SortedBackends(backends: set<BackendKey>) returns (list: seq<BackendKey>)
    ensures ListsBackends(backends, list)
  {
    var todo := backends;
    var found: seq<BackendKey> := [];
    while todo != {}
      invariant todo <= backends
      invariant forall b :: b in backends <==> b in todo || b in found
      invariant forall b | b in found :: b !in todo
      invariant Distinct(found)
      decreases todo
    {
      var b :| b in todo;
      todo := todo - {b};
      found := found + [b];
    }
    BackendLessOrders();
    list := SortSlice(found, BackendLess);
    SortedDistinctIsStrict(found, list);
  }

  method CollectRoutes(services: map<string, Record>) returns (found: seq<ServiceRoute>, ghost order: seq<string>)
    requires forall k | k in services :: GoodRecord(k, services[k])
    ensures Collected(services, order, found)
    ensures forall k | k in services :: k in order
  {
    var todo := services.Keys;
    found, order := [], [];
    while todo != {}
      invariant forall k :: k in services <==> k in todo || k in order
      invariant forall k | k in order :: k !in todo
      invariant Collected(services, order, found)
      decreases todo
    {
      var k :| k in todo;
      var rec := services[k];
      var backends := SortedBackends(rec.backends);
      var route := ServiceRoute(rec.account, rec.serviceName, rec.protocol, rec.description,
                                rec.externalPort, backends);
      todo := todo - {k};
      order := order + [k];
      found := found + [route];
    }
  }

  // ---- the object ----

  class State {
    const minPort: int
    const maxPort: int
    var services: map<string, Record>
    var usedPorts: map<int, string>
    var nextAllocProbe: int

    ghost function View(): Table
      reads this
    {
      Table(minPort, maxPort, services, usedPorts, nextAllocProbe)
    }

    constructor (minExternalPort: int, maxExternalPort: int)
      ensures View() == NewTable(minExternalPort, maxExternalPort) && Inv(View())
    {
      var lo := if minExternalPort <= 0 then 10000 else minExternalPort;
      minPort := lo;
      maxPort := if maxExternalPort < lo then 60000 else maxExternalPort;
      services, usedPorts, nextAllocProbe := map[], map[], lo;
    }

    /** Scans for a free port one candidate at a time. */
    method ReservePort(key: string, requested: int) returns (r: Result<int>)
      modifies this`usedPorts, this`nextAllocProbe
      ensures (View(), r) == Reserve(old(View()), key, requested)
    {
      if requested > 0 {
        if requested > MAX_PORT {
          return Err("requested_external_port outside [1, 65535]");
        }
        if requested in usedPorts && usedPorts[requested] != key {
          return Err("requested_external_port already reserved");
        }
        usedPorts := usedPorts[requested := key];
        return Ok(requested);
      }
      var port := nextAllocProbe;
      while port <= maxPort
        invariant nextAllocProbe <= port
        invariant forall p | nextAllocProbe <= p < port :: p in usedPorts
        invariant View() == old(View())
      {
        if port !in usedPorts {
          LeastFreeUnique(usedPorts, nextAllocProbe, maxPort, port);
          usedPorts := usedPorts[port := key];
          nextAllocProbe := port + 1;
          return Ok(port);
        }
        port := port + 1;
      }
      port := minPort;
      while port < nextAllocProbe
        invariant minPort <= port
        invariant forall p | minPort <= p < port :: p in usedPorts
        invariant View() == old(View())
      {
        if port !in usedPorts {
          LeastFreeUnique(usedPorts, minPort, nextAllocProbe - 1, port);
          usedPorts := usedPorts[port := key];
          nextAllocProbe := port + 1;
          return Ok(port);
        }
        port := port + 1;
      }
      return Err("no external ports available");
    }

    /** Finds the record of the entry's service, or reserves a port and creates it. */
    method OpenRecord(e: Entry) returns (r: Result<int>)
      requires Inv(View())
      modifies this
      ensures (View(), r) == Open(old(View()), e)
      ensures r.Ok? ==> var key := ServiceKey(e.account, e.serviceName);
                        key in services && services[key].externalPort == r.value
    {
      var acc := AccountOf(e.account);
      var key := ServiceKey(acc, e.serviceName);
      assert key == ServiceKey(e.account, e.serviceName);
      if key in services {
        return Ok(services[key].externalPort);
      }
      r := ReservePort(key, e.requested);
      ReserveEffect(old(View()), key, e.requested);
      if r.Ok? {
        services := services[key := Record(acc, e.serviceName, e.protocol, e.description, r.value, {})];
      }
    }

    method Seed(account: string, serviceName: string, protocol: string, description: string,
                externalPort: int, ip: string, port: int) returns (r: Result<int>)
      requires Inv(View())
      modifies this
      ensures Inv(View())
      ensures (View(), r) == AddBackend(old(View()), Entry(account, serviceName, protocol, description,
                                                           externalPort, ip, port))
    {
      var e := Entry(account, serviceName, protocol, description, externalPort, ip, port);
      AddInv(View(), e);
      if serviceName == "" {
        return Err("service_name is required");
      }
      if ip == "" {
        return Err("target_ip is required");
      }
      if port <= 0 {
        return Err("target_port must be > 0");
      }
      var open := OpenRecord(e);
      if open.Err? {
        return open;
      }
      var key := ServiceKey(e.account, e.serviceName);
      ghost var mid := View();
      var rec := services[key];
      if externalPort > 0 && externalPort != rec.externalPort {
        return Err("service already pinned to another external port");
      }
      services := services[key := rec.(backends := rec.backends + {BackendKey(ip, port)})];
      assert View() == PutBackend(mid, key, BackendKey(ip, port));
      return Ok(rec.externalPort);
    }

    method Register(account: string, serviceName: string, ip: string, port: int, requested: int)
      returns (r: Result<int>)
      requires Inv(View())
      modifies this
      ensures Inv(View())
      ensures (View(), r) == AddBackend(old(View()), Entry(account, serviceName, "", "", requested, ip, port))
    {
      r := Seed(account, serviceName, "", "", requested, ip, port);
    }

    method Deregister(account: string, serviceName: string, ip: string, port: int) returns (r: Result<bool>)
      requires Inv(View())
      modifies this
      ensures Inv(View())
      ensures (View(), r) == RemoveBackend(old(View()), Removal(account, serviceName, ip, port))
    {
      RemoveInv(View(), Removal(account, serviceName, ip, port));
      if serviceName == "" {
        return Err("service_name is required");
      }
      if ip == "" {
        return Err("target_ip is required");
      }
      var key := ServiceKey(AccountOf(account), serviceName);
      assert key == ServiceKey(account, serviceName);
      if key !in services {
        return Ok(false);
      }
      var rec := services[key];
      var kept := Without(rec.backends, ip, port);
      var removed := kept != rec.backends;
      assert removed == (Doomed(rec.backends, ip, port) != {}) by {
        assert Doomed(rec.backends, ip, port) <= rec.backends;
      }
      services := services[key := rec.(backends := kept)];
      if kept == {} {
        services := services - {key};
        usedPorts := usedPorts - {rec.externalPort};
        if rec.externalPort < nextAllocProbe {
          nextAllocProbe := rec.externalPort;
        }
      }
      return Ok(removed);
    }

    /** The services document, built by iterating the maps in any order and sorting. */
    method Snapshot() returns (routes: seq<ServiceRoute>)
      requires Inv(View())
      ensures IsSnapshot(View(), routes)
    {
      var found, order := CollectRoutes(services);
      RouteLessOrders();
      routes := SortSlice(found, RouteLess);
      SortedRoutesAreSnapshot(View(), order, found, routes);
    }
  }
}
