/** The service registry as a value: two maps that must stay inverse, and a search
    hint for the next automatic external port.  The class in RegistryState.dfy
    updates the same data in place and is proved against the functions here. */
module Registry {
  import opened Basics

  const DEFAULT_ACCOUNT := "default"
  const MAX_PORT := 65535

  datatype BackendKey = BackendKey(ip: string, port: int)

  datatype Record = Record(account: string, serviceName: string, protocol: string,
                           description: string, externalPort: int, backends: set<BackendKey>)

  datatype Table = Table(minPort: int, maxPort: int, services: map<string, Record>,
                         usedPorts: map<int, string>, probe: int)

  /** A Register request, or a bootstrap seed (which also carries protocol and description). */
  datatype Entry = Entry(account: string, serviceName: string, protocol: string,
                         description: string, requested: int, ip: string, port: int)

  /** A Deregister request; a port that is not positive addresses every port of `ip`. */
  datatype Removal = Removal(account: string, serviceName: string, ip: string, port: int)

  datatype Op = Add(entry: Entry) | Remove(removal: Removal)

  function AccountOf(account: string): string {
    if account == "" then DEFAULT_ACCOUNT else account
  }

  function ServiceKey(account: string, serviceName: string): string {
    AccountOf(account) + "/" + serviceName
  }

  function NewTable(minPort: int, maxPort: int): Table {
    var lo := if minPort <= 0 then 10000 else minPort;
    Table(lo, if maxPort < lo then 60000 else maxPort, map[], map[], lo)
  }

  // ---- port allocation ----

  /** The least port of [lo, hi] that `used` does not hold. */
  function LeastFree(used: map<int, string>, lo: int, hi: int): (r: Option<int>)
    ensures r.Some? ==> lo <= r.value <= hi && r.value !in used && forall p | lo <= p < r.value :: p in used
    ensures r.None? ==> forall p | lo <= p <= hi :: p in used
    decreases hi - lo
  {
    if lo > hi then None
    else if lo !in used then Some(lo)
    else LeastFree(used, lo + 1, hi)
  }

  function Claim(t: Table, key: string, port: int, probe: int): Table {
    t.(usedPorts := t.usedPorts[port := key], probe := probe)
  }

  /** A pinned port is taken as asked; otherwise scan up from the hint, then from the
      bottom of the range up to the hint. */
  function Reserve(t: Table, key: string, requested: int): (Table, Result<int>) {
    if requested > 0 then
      if requested > MAX_PORT then (t, Err("requested_external_port outside [1, 65535]"))
      else if requested in t.usedPorts && t.usedPorts[requested] != key then
        (t, Err("requested_external_port already reserved"))
      else (Claim(t, key, requested, t.probe), Ok(requested))
    else
      match LeastFree(t.usedPorts, t.probe, t.maxPort)
      case Some(p) => (Claim(t, key, p, p + 1), Ok(p))
      case None =>
        match LeastFree(t.usedPorts, t.minPort, t.probe - 1)
        case Some(p) => (Claim(t, key, p, p + 1), Ok(p))
        case None => (t, Err("no external ports available"))
  }

  // ---- operations ----

  function Rejects(e: Entry): Option<string> {
    if e.serviceName == "" then Some("service_name is required")
    else if e.ip == "" then Some("target_ip is required")
    else if e.port <= 0 then Some("target_port must be > 0")
    else None
  }

  /** Creates the record on the first backend of a service. */
  function Open(t: Table, e: Entry): (Table, Result<int>) {
    var key := ServiceKey(e.account, e.serviceName);
    if key in t.services then (t, Ok(t.services[key].externalPort))
    else
      var (t', port) := Reserve(t, key, e.requested);
      if port.Err? then (t, port)
      else
        var rec := Record(AccountOf(e.account), e.serviceName, e.protocol, e.description, port.value, {});
        (t'.(services := t'.services[key := rec]), port)
  }

  function PutBackend(t: Table, key: string, b: BackendKey): Table
    requires key in t.services
  {
    var rec := t.services[key];
    t.(services := t.services[key := rec.(backends := rec.backends + {b})])
  }

  function AddBackend(t: Table, e: Entry): (Table, Result<int>) {
    if Rejects(e).Some? then (t, Err(Rejects(e).value))
    else
      var (t', port) := Open(t, e);
      if port.Err? then (t', port)
      else if e.requested > 0 && e.requested != port.value then
        (t', Err("service already pinned to another external port"))
      else
        (PutBackend(t', ServiceKey(e.account, e.serviceName), BackendKey(e.ip, e.port)), port)
  }

  function Doomed(backends: set<BackendKey>, ip: string, port: int): set<BackendKey> {
    set b | b in backends && b.ip == ip && (port > 0 ==> b.port == port)
  }

  /** Deletes the record and frees its port, pulling the hint down to it. */
  function Close(t: Table, key: string): Table
    requires key in t.services
  {
    var port := t.services[key].externalPort;
    t.(services := t.services - {key}, usedPorts := t.usedPorts - {port},
       probe := if port < t.probe then port else t.probe)
  }

  function RemoveBackend(t: Table, r: Removal): (Table, Result<bool>) {
    var key := ServiceKey(r.account, r.serviceName);
    if r.serviceName == "" then (t, Err("service_name is required"))
    else if r.ip == "" then (t, Err("target_ip is required"))
    else if key !in t.services then (t, Ok(false))
    else
      var rec := t.services[key];
      var gone := Doomed(rec.backends, r.ip, r.port);
      var t' := t.(services := t.services[key := rec.(backends := rec.backends - gone)]);
      (if rec.backends - gone == {} then Close(t', key) else t', Ok(gone != {}))
  }

  function Apply(t: Table, op: Op): Table {
    match op
    case Add(e) => AddBackend(t, e).0
    case Remove(r) => RemoveBackend(t, r).0
  }

  function Run(t: Table, ops: seq<Op>): Table {
    if ops == [] then t else Apply(Run(t, ops[..|ops| - 1]), ops[|ops| - 1])
  }

  // ---- the invariant ----

  /** `usedPorts` and the records' external ports are inverse to each other. */
  ghost predicate Inverse(t: Table) {
    && (forall k | k in t.services ::
          t.services[k].externalPort in t.usedPorts && t.usedPorts[t.services[k].externalPort] == k)
    && (forall p | p in t.usedPorts ::
          p >= 1 && t.usedPorts[p] in t.services && t.services[t.usedPorts[p]].externalPort == p)
  }

  ghost predicate GoodRecord(k: string, rec: Record) {
    && rec.backends != {}
    && rec.account != "" && rec.serviceName != ""
    && k == rec.account + "/" + rec.serviceName
    && forall b | b in rec.backends :: b.ip != "" && b.port > 0
  }

  ghost predicate GoodRecords(t: Table) {
    forall k | k in t.services :: GoodRecord(k, t.services[k])
  }

  /** The hint never skips a free port of the range, and stays in machine range. */
  ghost predicate GoodProbe(t: Table) {
    && 1 <= t.minPort
    && 1 <= t.probe
    && (t.probe <= t.minPort || t.probe <= t.maxPort + 1)
    && forall p | t.minPort <= p < t.probe :: p in t.usedPorts
  }

  ghost predicate Inv(t: Table) {
    Inverse(t) && GoodRecords(t) && GoodProbe(t)
  }

  /** A new registry serves nothing, and it has ports to give exactly if the limits do not
      cross or, when the upper one is missing, the lower one is not above 60000. */
  lemma NewTableInv(minPort: int, maxPort: int)
    ensures var t := NewTable(minPort, maxPort);
            && Inv(t) && t.services == map[] && t.minPort == (if minPort > 0 then minPort else 10000)
            && (AutoPort(t, "a/s").Some? <==> t.minPort <= maxPort || t.minPort <= 60000)
  {
    SecondScanIsRedundant(NewTable(minPort, maxPort));
  }

  /** The second scan, from the bottom of the range up to the hint, never finds a port. */
  lemma SecondScanIsRedundant(t: Table)
    requires Inv(t)
    ensures LeastFree(t.usedPorts, t.minPort, t.probe - 1) == None
  {}

  /** A granted port is new, positive, the pinned one if one was asked for, and the only
      thing that changes besides the hint, which moves behind a port that was not pinned. */
  lemma ReserveEffect(t: Table, key: string, requested: int)
    requires Inv(t) && key !in t.services
    ensures var (t', port) := Reserve(t, key, requested);
            && (port.Err? ==> t' == t)
            && (port.Ok? ==>
                  && port.value >= 1 && port.value !in t.usedPorts
                  && (requested > 0 ==> port.value == requested)
                  && t' == Claim(t, key, port.value, if requested > 0 then t.probe else port.value + 1)
                  && GoodProbe(t'))
  {
    if requested <= 0 {
      SecondScanIsRedundant(t);
    }
  }

  /** All records are good, except that the one at `key` may still lack backends. */
  ghost predicate OpenRecords(t: Table, key: string) {
    forall k | k in t.services ::
      if k == key then GoodRecord(k, t.services[k].(backends := {BackendKey("ip", 1)}))
                       && forall b | b in t.services[k].backends :: b.ip != "" && b.port > 0
      else GoodRecord(k, t.services[k])
  }

  lemma PutBackendInv(t: Table, key: string, b: BackendKey)
    requires key in t.services && Inverse(t) && GoodProbe(t) && OpenRecords(t, key)
    requires b.ip != "" && b.port > 0
    ensures Inv(PutBackend(t, key, b))
  {
    var t' := PutBackend(t, key, b);
    assert b in t'.services[key].backends;
    assert forall k | k in t'.services :: t'.services[k].externalPort == t.services[k].externalPort;
  }

  lemma OpenEffect(t: Table, e: Entry)
    requires Inv(t)
    ensures var (t', port) := Open(t, e);
            && Inverse(t') && GoodProbe(t')
            && (port.Err? ==> t' == t)
            && (port.Ok? ==>
                  var key := ServiceKey(e.account, e.serviceName);
                  && key in t'.services && t'.services.Keys == t.services.Keys + {key}
                  && t'.services[key].externalPort == port.value
                  && (key !in t.services && e.requested > 0 ==> port.value == e.requested)
                  && (forall k | k in t.services :: t'.services[k] == t.services[k]))
  {
    var key := ServiceKey(e.account, e.serviceName);
    if key !in t.services {
      ReserveEffect(t, key, e.requested);
    }
  }

  lemma OpenKeepsRecords(t: Table, e: Entry)
    requires Inv(t) && Rejects(e).None? && Open(t, e).1.Ok?
    ensures OpenRecords(Open(t, e).0, ServiceKey(e.account, e.serviceName))
  {}

  lemma AddInv(t: Table, e: Entry)
    requires Inv(t)
    ensures Inv(AddBackend(t, e).0)
  {
    OpenEffect(t, e);
    var (u, port) := Open(t, e);
    if AddBackend(t, e).1.Ok? {
      OpenKeepsRecords(t, e);
      PutBackendInv(u, ServiceKey(e.account, e.serviceName), BackendKey(e.ip, e.port));
    }
  }

  lemma CloseInv(t: Table, key: string)
    requires key in t.services && Inverse(t) && GoodProbe(t)
    requires forall k | k in t.services && k != key :: GoodRecord(k, t.services[k])
    ensures Inv(Close(t, key))
  {
    var t' := Close(t, key);
    assert forall k | k in t'.services :: t'.services[k] == t.services[k] && k != key;
  }

  lemma RemoveInv(t: Table, r: Removal)
    requires Inv(t)
    ensures Inv(RemoveBackend(t, r).0)
  {
    var key := ServiceKey(r.account, r.serviceName);
    if r.serviceName != "" && r.ip != "" && key in t.services {
      var rec := t.services[key];
      var left := rec.backends - Doomed(rec.backends, r.ip, r.port);
      var u := t.(services := t.services[key := rec.(backends := left)]);
      assert Inverse(u) by {
        assert forall k | k in u.services :: u.services[k].externalPort == t.services[k].externalPort;
      }
      if left == {} {
        CloseInv(u, key);
      }
    }
  }

  lemma ApplyInv(t: Table, op: Op)
    requires Inv(t)
    ensures Inv(Apply(t, op))
  {
    match op
    case Add(e) => AddInv(t, e);
    case Remove(r) => RemoveInv(t, r);
  }

  /** Every state reached by any sequence of requests, good or bad, satisfies the invariant. */
  lemma {:induction false} RunInv(t: Table, ops: seq<Op>)
    requires Inv(t)
    ensures Inv(Run(t, ops))
  {
    if ops != [] {
      RunInv(t, ops[..|ops| - 1]);
      ApplyInv(Run(t, ops[..|ops| - 1]), ops[|ops| - 1]);
    }
  }

  function PortsOf(services: map<string, Record>, keys: set<string>): set<int>
    requires keys <= services.Keys
  {
    set k | k in keys :: services[k].externalPort
  }

  lemma {:induction false} DistinctPortsCount(services: map<string, Record>, keys: set<string>)
    requires keys <= services.Keys
    requires forall j, k | j in keys && k in keys && j != k :: services[j].externalPort != services[k].externalPort
    ensures |PortsOf(services, keys)| == |keys|
  {
    if keys != {} {
      var k :| k in keys;
      DistinctPortsCount(services, keys - {k});
      assert PortsOf(services, keys) == PortsOf(services, keys - {k}) + {services[k].externalPort};
    }
  }

  /** Exactly one used port per service. */
  lemma OnePortPerService(t: Table)
    requires Inv(t)
    ensures |t.usedPorts| == |t.services|
  {
    DistinctPortsCount(t.services, t.services.Keys);
    forall p | p in t.usedPorts.Keys
      ensures p in PortsOf(t.services, t.services.Keys)
    {
      assert t.services[t.usedPorts[p]].externalPort == p;
    }
    assert PortsOf(t.services, t.services.Keys) == t.usedPorts.Keys;
  }

  // ---- errors and stability ----

  /** The backends of a service that may not exist. */
  function BackendsOf(t: Table, service: string): set<BackendKey> {
    if service in t.services then t.services[service].backends else {}
  }

  lemma PutBackendEffect(t: Table, key: string, b: BackendKey)
    requires key in t.services
    ensures var t' := PutBackend(t, key, b);
            && t'.services.Keys == t.services.Keys
            && t'.services[key] == t.services[key].(backends := t.services[key].backends + {b})
            && forall k | k in t.services && k != key :: t'.services[k] == t.services[k]
  {}

  lemma OpenedRecord(t: Table, e: Entry)
    ensures var (t', port) := Open(t, e);
            var key := ServiceKey(e.account, e.serviceName);
            port.Ok? && key !in t.services ==>
              key in t'.services
              && t'.services[key] == Record(if e.account == "" then DEFAULT_ACCOUNT else e.account, e.serviceName,
                                            e.protocol, e.description, port.value, {})
  {}

  /** A rejected request is a no-op on the whole table; an accepted one adds exactly one
      backend to exactly one service and reports that service's port. The first backend
      brings a record with what the request says; later ones leave the rest of it alone. */
  lemma AddBackendEffect(t: Table, e: Entry)
    requires Inv(t)
    ensures var (t', r) := AddBackend(t, e);
            var key, b := ServiceKey(e.account, e.serviceName), BackendKey(e.ip, e.port);
            && (r.Err? ==> t' == t)
            && (r.Ok? ==>
                  && t'.services.Keys == t.services.Keys + {key}
                  && t'.services[key] ==
                     (if key in t.services then t.services[key].(backends := t.services[key].backends + {b})
                      else Record(if e.account == "" then DEFAULT_ACCOUNT else e.account, e.serviceName,
                                  e.protocol, e.description, r.value, {b}))
                  && t'.services[key].externalPort == r.value
                  && (e.requested > 0 ==> r.value == e.requested)
                  && forall k | k in t.services && k != key :: t'.services[k] == t.services[k])
  {
    OpenEffect(t, e);
    OpenedRecord(t, e);
    if AddBackend(t, e).1.Ok? {
      PutBackendEffect(Open(t, e).0, ServiceKey(e.account, e.serviceName), BackendKey(e.ip, e.port));
    }
  }

  /** A removal with a positive port addresses one backend, any other one every backend of
      the address. */
  predicate Addresses(r: Removal, b: BackendKey) {
    if r.port > 0 then b == BackendKey(r.ip, r.port) else b.ip == r.ip
  }

  lemma DoomedAreAddressed(backends: set<BackendKey>, r: Removal)
    ensures forall b :: b in Doomed(backends, r.ip, r.port) <==> b in backends && Addresses(r, b)
  {}

  /** Deregistering leaves every other service alone; a backend of the service is gone
      afterwards exactly if it is addressed, the answer is true exactly if some backend went,
      and the record goes, and with it the port, exactly when no backend is left. */
  lemma RemoveBackendEffect(t: Table, r: Removal)
    requires Inv(t)
    ensures var (t', res) := RemoveBackend(t, r);
            var key := ServiceKey(r.account, r.serviceName);
            var was, now := BackendsOf(t, key), BackendsOf(t', key);
            && (res.Err? <==> r.serviceName == "" || r.ip == "")
            && (res.Err? || !res.value ==> t' == t)
            && (forall k | k != key :: (k in t'.services <==> k in t.services)
                                       && (k in t.services ==> t'.services[k] == t.services[k]))
            && (res.Ok? ==>
                  && (forall b :: b in now <==> b in was && !Addresses(r, b))
                  && (res.value <==> exists b :: b in was && b !in now)
                  && (key in t'.services <==> key in t.services && now != {})
                  && (key in t'.services ==>
                        t'.services[key] == t.services[key].(backends := now) && t'.usedPorts == t.usedPorts)
                  && (key in t.services && now == {} ==>
                        t'.usedPorts == t.usedPorts - {t.services[key].externalPort}))
  {
    var key := ServiceKey(r.account, r.serviceName);
    if RemoveBackend(t, r).1.Ok? && key in t.services {
      var rec := t.services[key];
      var gone := Doomed(rec.backends, r.ip, r.port);
      DoomedAreAddressed(rec.backends, r);
      if gone == {} {
        assert rec.backends - {} == rec.backends;
        assert t.services[key := rec] == t.services;
      } else {
        var b :| b in gone;
        assert b in BackendsOf(t, key) && b !in BackendsOf(RemoveBackend(t, r).0, key);
      }
    }
  }

  lemma ApplyKeepsPort(t: Table, op: Op, k: string)
    requires Inv(t)
    requires k in t.services && k in Apply(t, op).services
    ensures Apply(t, op).services[k].externalPort == t.services[k].externalPort
  {
    match op
    case Add(e) => AddBackendEffect(t, e);
    case Remove(r) => RemoveBackendEffect(t, r);
  }

  /** A service keeps its external port for as long as its record lives. */
  lemma {:induction false} PortNeverChanges(t: Table, ops: seq<Op>, k: string)
    requires Inv(t)
    requires forall n | 0 <= n <= |ops| :: k in Run(t, ops[..n]).services
    ensures k in t.services && k in Run(t, ops).services
    ensures Run(t, ops).services[k].externalPort == t.services[k].externalPort
  {
    assert k in Run(t, ops[..0]).services;
    if ops != [] {
      var before := ops[..|ops| - 1];
      assert forall n | 0 <= n <= |before| :: before[..n] == ops[..n];
      assert ops[..|ops|] == ops;
      PortNeverChanges(t, before, k);
      RunInv(t, before);
      ApplyKeepsPort(Run(t, before), ops[|ops| - 1], k);
    }
  }

  // ---- which port an automatic request gets ----

  function AutoPort(t: Table, key: string): Option<int> {
    var r := Reserve(t, key, 0).1;
    if r.Ok? then Some(r.value) else None
  }

  /** Some port below the range, at or above the hint, is free. */
  ghost predicate GapBelowRange(t: Table) {
    exists p :: t.probe <= p < t.minPort && p <= t.maxPort && p !in t.usedPorts
  }

  lemma {:induction false} LeastFreeUnique(used: map<int, string>, lo: int, hi: int, p: int)
    requires lo <= p <= hi && p !in used
    requires forall q | lo <= q < p :: q in used
    ensures LeastFree(used, lo, hi) == Some(p)
    decreases hi - lo
  {
    if lo < p {
      LeastFreeUnique(used, lo + 1, hi, p);
    }
  }

  /** Automatic allocation hands out the least free port of [minPort, maxPort], and
      fails only when there is none, exactly when no port below the range is free at or
      above the hint. */
  lemma AutoPortIsLowestFree(t: Table, key: string)
    requires Inv(t)
    ensures AutoPort(t, key) == LeastFree(t.usedPorts, t.minPort, t.maxPort) <==> !GapBelowRange(t)
  {
    SecondScanIsRedundant(t);
    var got := LeastFree(t.usedPorts, t.probe, t.maxPort);
    assert AutoPort(t, key) == got;
    if !GapBelowRange(t) && got.Some? {
      LeastFreeUnique(t.usedPorts, t.minPort, t.maxPort, got.value);
    }
  }

  /** Every pinned request of the run asks for a port inside or above the range. */
  ghost predicate PinnedAtLeast(ops: seq<Op>, lo: int) {
    forall i | 0 <= i < |ops| && ops[i].Add? :: ops[i].entry.requested <= 0 || ops[i].entry.requested >= lo
  }

  ghost predicate PortsAtLeast(t: Table, lo: int) {
    lo <= t.probe && forall p | p in t.usedPorts :: lo <= p
  }

  lemma AddPortsAtLeast(t: Table, e: Entry, lo: int)
    requires Inv(t) && PortsAtLeast(t, lo)
    requires e.requested <= 0 || e.requested >= lo
    ensures PortsAtLeast(AddBackend(t, e).0, lo)
  {
    var key := ServiceKey(e.account, e.serviceName);
    if key !in t.services {
      ReserveEffect(t, key, e.requested);
      SecondScanIsRedundant(t);
    }
  }

  lemma RemovePortsAtLeast(t: Table, r: Removal, lo: int)
    requires Inv(t) && PortsAtLeast(t, lo)
    ensures PortsAtLeast(RemoveBackend(t, r).0, lo)
  {}

  lemma ApplyPortsAtLeast(t: Table, op: Op, lo: int)
    requires Inv(t) && PortsAtLeast(t, lo)
    requires op.Add? ==> op.entry.requested <= 0 || op.entry.requested >= lo
    ensures PortsAtLeast(Apply(t, op), lo) && Apply(t, op).minPort == t.minPort
  {
    match op
    case Add(e) => AddPortsAtLeast(t, e, lo);
    case Remove(r) => RemovePortsAtLeast(t, r, lo);
  }

  lemma {:induction false} RunPortsAtLeast(t: Table, ops: seq<Op>)
    requires Inv(t) && PortsAtLeast(t, t.minPort) && PinnedAtLeast(ops, t.minPort)
    ensures Run(t, ops).minPort == t.minPort && PortsAtLeast(Run(t, ops), t.minPort)
  {
    if ops != [] {
      var before := ops[..|ops| - 1];
      RunPortsAtLeast(t, before);
      RunInv(t, before);
      ApplyPortsAtLeast(Run(t, before), ops[|ops| - 1], t.minPort);
    }
  }

  /** In every run whose pinned ports lie at or above the range's bottom, the next
      automatic request gets the least free port of the range, or fails when none is free. */
  lemma LowestFreeInEveryRun(minPort: int, maxPort: int, ops: seq<Op>, key: string)
    requires PinnedAtLeast(ops, NewTable(minPort, maxPort).minPort)
    ensures var t := Run(NewTable(minPort, maxPort), ops);
            AutoPort(t, key) == LeastFree(t.usedPorts, t.minPort, t.maxPort)
  {
    NewTableInv(minPort, maxPort);
    RunInv(NewTable(minPort, maxPort), ops);
    RunPortsAtLeast(NewTable(minPort, maxPort), ops);
    AutoPortIsLowestFree(Run(NewTable(minPort, maxPort), ops), key);
  }

  /** Pinning a low port and releasing it pulls the hint below the range, and the next
      automatic request is then served from outside [minPort, maxPort]. */
  lemma ReleasedLowPinEscapesRange()
    ensures var pin := Add(Entry("a", "s", "", "", 80, "10.0.0.1", 9000));
            var drop := Remove(Removal("a", "s", "10.0.0.1", 9000));
            var t := Run(NewTable(10000, 20000), [pin, drop]);
            t.minPort == 10000 && t.usedPorts == map[] && AutoPort(t, "a/x") == Some(80)
  {
    var pin := Add(Entry("a", "s", "", "", 80, "10.0.0.1", 9000));
    var drop := Remove(Removal("a", "s", "10.0.0.1", 9000));
    var t0 := NewTable(10000, 20000);
    var key := ServiceKey("a", "s");
    var b := BackendKey("10.0.0.1", 9000);
    var t1 := Table(10000, 20000, map[key := Record("a", "s", "", "", 80, {b})], map[80 := key], 10000);
    assert Run(t0, []) == t0;
    assert [pin] == [] + [pin];
    assert Apply(t0, pin) == t1 by {
      assert {} + {b} == {b};
    }
    assert Run(t0, [pin]) == t1;
    assert [pin, drop][..1] == [pin];
    assert Doomed({b}, "10.0.0.1", 9000) == {b};
    var t2 := Apply(t1, drop);
    assert t2.usedPorts == map[] && t2.probe == 80;
    assert Run(t0, [pin, drop]) == t2;
  }
}
