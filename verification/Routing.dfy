/** The table of desired listeners that one proxy sync builds from a snapshot. */
module Routing {
  import opened Basics
  import opened Registry
  import opened RegistryState

  /** Backends of one external port, filed under their "ip:port" key. */
  type Targets = map<string, BackendKey>
  type Desired = map<int, Targets>

  function KeyOf(b: BackendKey): string {
    HostPortKey(b.ip, b.port)
  }

  function Put(targets: Targets, backends: seq<BackendKey>): Targets {
    if backends == [] then targets
    else
      var n := |backends| - 1;
      Put(targets, backends[..n])[KeyOf(backends[n]) := backends[n]]
  }

  /** What the ports of `d` look like after one more route. */
  function AddRoute(d: Desired, r: ServiceRoute): Desired {
    if r.externalPort <= 0 then d
    else d[r.externalPort := Put(Wanted(d, r.externalPort), r.backends)]
  }

  function DesiredTable(routes: seq<ServiceRoute>): Desired {
    if routes == [] then map[] else AddRoute(DesiredTable(routes[..|routes| - 1]), routes[|routes| - 1])
  }

  /** The targets a sync wants on a port; none when the port is not listed. */
  function Wanted(d: Desired, port: int): Targets {
    if port in d then d[port] else map[]
  }

  /** The inner loop: one route's backends, merged into what its port already has. */
  method PutBackends(before: Targets, backends: seq<BackendKey>) returns (targets: Targets)
    ensures targets == Put(before, backends)
  {
    targets := before;
    for j := 0 to |backends|
      invariant targets == Put(before, backends[..j])
    {
      PutNext(before, backends, j);
      targets := targets[KeyOf(backends[j]) := backends[j]];
    }
    assert backends[..|backends|] == backends;
  }

  lemma PutNext(targets: Targets, backends: seq<BackendKey>, j: nat)
    requires j < |backends|
    ensures Put(targets, backends[..j + 1]) == Put(targets, backends[..j])[KeyOf(backends[j]) := backends[j]]
  {
    assert backends[..j + 1][..j] == backends[..j];
  }

  /** The outer loop over the snapshot. */
  method BuildDesired(routes: seq<ServiceRoute>) returns (d: Desired)
    ensures d == DesiredTable(routes)
  {
    d := map[];
    for i := 0 to |routes|
      invariant d == DesiredTable(routes[..i])
    {
      assert routes[..i + 1][..i] == routes[..i];
      var r := routes[i];
      if r.externalPort > 0 {
        var targets := PutBackends(Wanted(d, r.externalPort), r.backends);
        d := d[r.externalPort := targets];
      }
    }
    assert routes[..|routes|] == routes;
  }

  // ---- every target sits under its own key ----

  ghost predicate OwnKeys(targets: Targets) {
    forall k | k in targets :: k == KeyOf(targets[k])
  }

  ghost predicate WellKeyed(d: Desired) {
    forall p | p in d :: p > 0 && OwnKeys(d[p])
  }

  lemma {:induction false} PutOwnKeys(targets: Targets, backends: seq<BackendKey>)
    requires OwnKeys(targets)
    ensures OwnKeys(Put(targets, backends))
  {
    if backends != [] {
      PutOwnKeys(targets, backends[..|backends| - 1]);
    }
  }

  lemma {:induction false} DesiredWellKeyed(routes: seq<ServiceRoute>)
    ensures WellKeyed(DesiredTable(routes))
  {
    if routes != [] {
      var before, r := routes[..|routes| - 1], routes[|routes| - 1];
      DesiredWellKeyed(before);
      PutOwnKeys(Wanted(DesiredTable(before), r.externalPort), r.backends);
    }
  }

  // ---- no backend is lost, none is merged with another ----

  /** `targets` holds exactly the given backends, each under its own key. */
  ghost predicate Holds(targets: Targets, backends: set<BackendKey>) {
    && OwnKeys(targets)
    && forall b :: b in backends <==> KeyOf(b) in targets && targets[KeyOf(b)] == b
  }

  lemma {:induction false} PutHolds(backends: seq<BackendKey>, b: BackendKey)
    ensures b in backends <==> KeyOf(b) in Put(map[], backends) && Put(map[], backends)[KeyOf(b)] == b
  {
    if backends != [] {
      var n := |backends| - 1;
      var last := backends[n];
      PutHolds(backends[..n], b);
      assert backends == backends[..n] + [last];
      if KeyOf(last) == KeyOf(b) {
        HostPortKeyInjective(last.ip, last.port, b.ip, b.port);
      }
    }
  }

  ghost predicate DistinctPorts(routes: seq<ServiceRoute>) {
    && (forall i | 0 <= i < |routes| :: routes[i].externalPort > 0)
    && (forall i, j | 0 <= i < j < |routes| :: routes[i].externalPort != routes[j].externalPort)
  }

  lemma {:induction false} PortComesFromRoute(routes: seq<ServiceRoute>, p: int) returns (i: nat)
    requires p in DesiredTable(routes)
    ensures i < |routes| && routes[i].externalPort == p
  {
    var n := |routes| - 1;
    if routes[n].externalPort == p {
      i := n;
    } else {
      i := PortComesFromRoute(routes[..n], p);
    }
  }

  lemma {:induction false} RouteFillsPort(routes: seq<ServiceRoute>, i: nat)
    requires DistinctPorts(routes) && i < |routes|
    ensures routes[i].externalPort in DesiredTable(routes)
    ensures DesiredTable(routes)[routes[i].externalPort] == Put(map[], routes[i].backends)
  {
    var n := |routes| - 1;
    if i < n {
      RouteFillsPort(routes[..n], i);
    } else if routes[n].externalPort in DesiredTable(routes[..n]) {
      var j := PortComesFromRoute(routes[..n], routes[n].externalPort);
    }
  }

  lemma SnapshotPorts(t: Table, routes: seq<ServiceRoute>)
    requires Inv(t) && IsSnapshot(t, routes)
    ensures DistinctPorts(routes)
  {
    forall i, j | 0 <= i < j < |routes|
      ensures routes[i].externalPort != routes[j].externalPort
    {
      RouteKeysDistinct(t, routes, i, j);
    }
  }

  lemma UsedPortHolds(t: Table, routes: seq<ServiceRoute>, p: int)
    requires Inv(t) && IsSnapshot(t, routes) && p in t.usedPorts
    ensures p in DesiredTable(routes)
    ensures Holds(DesiredTable(routes)[p], t.services[t.usedPorts[p]].backends)
  {
    var i :| 0 <= i < |routes| && RouteKey(routes[i]) == t.usedPorts[p];
    assert routes[i].externalPort == p;
    SnapshotPorts(t, routes);
    RouteFillsPort(routes, i);
    DesiredWellKeyed(routes);
    forall b {
      PutHolds(routes[i].backends, b);
    }
  }

  /** From registry to proxy: the table a sync builds has exactly the used ports, and
      each port carries exactly the backends of the one service that owns it. */
  lemma DesiredMatchesRegistry(t: Table, routes: seq<ServiceRoute>)
    requires Inv(t) && IsSnapshot(t, routes)
    ensures DesiredTable(routes).Keys == t.usedPorts.Keys
    ensures forall p | p in t.usedPorts ::
              Holds(DesiredTable(routes)[p], t.services[t.usedPorts[p]].backends)
  {
    var d := DesiredTable(routes);
    forall p | p in t.usedPorts
      ensures p in d && Holds(d[p], t.services[t.usedPorts[p]].backends)
    {
      UsedPortHolds(t, routes, p);
    }
    forall p | p in d
      ensures p in t.usedPorts
    {
      var i := PortComesFromRoute(routes, p);
      assert t.services[RouteKey(routes[i])].externalPort == p;
    }
  }
}
