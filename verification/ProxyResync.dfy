/** What a sync leaves behind, and that repeating it changes nothing. */
module ProxyResync {
  import RegistryState
  import opened Routing
  import opened Proxy
  import opened ProxyInvariant
  import opened ProxySafety
  import opened ProxyDrain

  // ---- one section ----

  /** When a sync leaves a port's section, under any interleaving with handlers, every
      listed key is present and not draining, and every other key has stopped taking
      connections. */
  lemma SectionResult(r: Run, j: nat, k: string)
    requires r.FromInit() && j < |r.actions| && r.actions[j] == Engine(SectionEnd)
    ensures var s, sec := r.states[j + 1], r.states[j].sync.sec;
            && sec.li in s.instances && s.instances[sec.li].port == sec.port
            && var entries := s.instances[sec.li].backends;
               && (k in TargetsOf(sec) ==> HealthIs(s, entries, k, Draining))
               && (k in entries && k !in TargetsOf(sec) ==> HealthIs(s, entries, k, Active))
  {
    RunInv(r, j);
  }

  /** The key still waits to be processed by the drop loop. */
  predicate Pending(y: Sync, k: string) {
    match y
    case Dropping(_, keys) => k in keys
    case DropSwapping(_, keys, cur) => k in keys || k == cur
    case DropChecking(_, keys, cur) => k in keys || k == cur
    case _ => false
  }

  /** The section has been entered and k survives in it as an unlisted, processed key. */
  ghost predicate Survivor(s: State, k: string) {
    InSection(s.sync) && SectionLive(s) && k in Entries(s) && k !in TargetsOf(s.sync.sec) && !Pending(s.sync, k)
  }

  lemma EngineSurvivor(s: State, a: SyncStep, k: string)
    requires EngineEnabled(s, a) && Survivor(EngineApply(s, a), k)
    ensures InSection(s.sync) && EngineApply(s, a).sync.sec == s.sync.sec
    ensures || Survivor(s, k)
            || (a.DropCheck? && s.sync.k == k && s.backends[Entries(s)[k]].conns != 0)
  {}

  lemma SectionIsLive(r: Run, n: nat)
    requires r.FromInit() && n < |r.states|
    ensures SectionLive(r.states[n])
  {
    RunInv(r, n);
    var s := r.states[n];
    if InSection(s.sync) {
      assert forall k | k in s.instances[s.sync.sec.li].backends :: EntryOk(s, s.sync.sec.li, k);
    }
  }

  lemma BusyHasHandler(s: State, b: Id)
    requires CountsOk(s) && b in s.backends && s.backends[b].conns != 0
    ensures CountedOn(s, b) != {}
  {
    assert |CountedOn(s, b)| != 0;
  }

  /** The drop loop checks k here, and some handler is counted on k's backend. */
  ghost predicate CheckedBusy(s: State, a: Action, k: string) {
    a == Engine(DropCheck) && EngineEnabled(s, DropCheck) && s.sync.k == k && CountedOn(s, Entries(s)[k]) != {}
  }

  lemma SurvivorStep(s: State, a: Action, k: string)
    requires CountsOk(s) && Enabled(s, a) && Survivor(Apply(s, a), k) && SectionLive(s)
    ensures InSection(s.sync) && Apply(s, a).sync.sec == s.sync.sec
    ensures Survivor(s, k) || CheckedBusy(s, a, k)
  {
    match a
    case Accept(_, _) =>
    case Conn(h, e) =>
      ConnApplyFrame(s, h, e);
      assert Locked(s, s.sync.sec.li);
    case Engine(step) =>
      EngineSurvivor(s, step, k);
      if step.DropCheck? && s.backends[Entries(s)[s.sync.k]].conns != 0 {
        BusyHasHandler(s, Entries(s)[s.sync.k]);
      }
  }

  lemma {:induction false} SurvivorWasBusyAt(r: Run, n: nat, k: string) returns (m: nat)
    requires r.FromInit() && n < |r.states| && Survivor(r.states[n], k)
    ensures m < n && CheckedBusy(r.states[m], r.actions[m], k) && r.states[m].sync.sec == r.states[n].sync.sec
  {
    SectionIsLive(r, n - 1);
    CountersAreExact(r, n - 1);
    SurvivorStep(r.states[n - 1], r.actions[n - 1], k);
    if Survivor(r.states[n - 1], k) {
      m := SurvivorWasBusyAt(r, n - 1, k);
    } else {
      m := n - 1;
    }
  }

  /** An unlisted key that is still there when its section ends had a counted connection
      at the moment the drop loop checked it. */
  lemma SurvivorWasBusy(r: Run, j: nat, k: string) returns (m: nat)
    requires r.FromInit() && j < |r.actions| && r.actions[j] == Engine(SectionEnd)
    requires k in Entries(r.states[j]) && k !in TargetsOf(r.states[j].sync.sec)
    ensures m < j && CheckedBusy(r.states[m], r.actions[m], k) && r.states[m].sync.sec == r.states[j].sync.sec
  {
    m := SurvivorWasBusyAt(r, j, k);
  }

  // ---- a whole sync without connection events ----

  /** The port is exactly as a sync of d leaves it: listed keys ready, the rest draining
      or unhealthy with connections, and not empty unless listed. */
  ghost predicate PortSettled(s: State, d: Desired, port: int) {
    port in s.listeners ==>
      && s.listeners[port] in s.instances
      && var entries := s.instances[s.listeners[port]].backends;
         && (port !in d ==> entries != map[])
         && (forall k | k in Wanted(d, port) :: HealthIs(s, entries, k, Draining))
         && (forall k | k in entries && k !in Wanted(d, port) ::
               HealthIs(s, entries, k, Active) && s.backends[entries[k]].conns != 0)
  }

  ghost predicate Settled(s: State, d: Desired) {
    forall p | p in s.listeners :: PortSettled(s, d, p)
  }

  /** Processed unlisted keys of the current section have connections. */
  ghost predicate SurvivorsBusy(s: State) {
    InSection(s.sync) && SectionLive(s) ==>
      forall k | Survivor(s, k) :: s.backends[Entries(s)[k]].conns != 0
  }

  ghost predicate Settling(s: State, d: Desired) {
    match s.sync
    case Idle => false
    case Stopped => false
    case Listening(e, _) => e == d
    case Ports(e, todo) => e == d && forall p | p in s.listeners && p !in todo :: PortSettled(s, d, p)
    case _ =>
      var sec := s.sync.sec;
      && sec.desired == d && SurvivorsBusy(s)
      && forall p | p in s.listeners && p !in sec.todo && p != sec.port :: PortSettled(s, d, p)
  }

  lemma EngineSurvivorsBusy(s: State, a: SyncStep)
    requires EngineEnabled(s, a) && SurvivorsBusy(s)
    ensures SurvivorsBusy(EngineApply(s, a))
  {
    var s' := EngineApply(s, a);
    EngineHealthOnly(s, a);
    if InSection(s'.sync) && SectionLive(s') {
      forall k | Survivor(s', k)
        ensures s'.backends[Entries(s')[k]].conns != 0
      {
        EngineSurvivor(s, a, k);
        SurvivorKeepsBackend(s, a, k);
      }
    }
  }

  lemma SurvivorKeepsBackend(s: State, a: SyncStep, k: string)
    requires EngineEnabled(s, a) && Survivor(EngineApply(s, a), k)
    ensures InSection(s.sync) && k in Entries(s) && Entries(EngineApply(s, a))[k] == Entries(s)[k]
  {
    EngineSurvivor(s, a, k);
    EntryIsOldOrNew(s, a, EngineApply(s, a).sync.sec.li, k);
  }

  lemma PortSettledFrame(s: State, s': State, d: Desired, port: int)
    requires ListenersOk(s) && PortSettled(s, d, port)
    requires port in s'.listeners ==>
               && port in s.listeners && s'.listeners[port] == s.listeners[port]
               && var l := s.listeners[port];
                  && l in s'.instances && s'.instances[l] == s.instances[l]
                  && forall k | k in s.instances[l].backends ::
                       var b := s.instances[l].backends[k];
                       b in s.backends && b in s'.backends && s'.backends[b] == s.backends[b]
    ensures PortSettled(s', d, port)
  {}

  /** A step inside one section leaves the other ports alone. */
  lemma OtherPortStays(s: State, a: SyncStep, d: Desired, port: int)
    requires Inv(s) && EngineEnabled(s, a) && InSection(s.sync) && port != s.sync.sec.port
    requires PortSettled(s, d, port)
    ensures PortSettled(EngineApply(s, a), d, port)
  {
    var s' := EngineApply(s, a);
    EngineLockedOnly(s, a);
    SectionListeners(s, a);
    if port in s.listeners {
      var l := s.listeners[port];
      assert s.instances[s.sync.sec.li].port == s.sync.sec.port;
      forall k | k in s.instances[l].backends
        ensures var b := s.instances[l].backends[k];
                b in s.backends && b in s'.backends && s'.backends[b] == s.backends[b]
      {
        assert EntryOk(s, l, k);
        HealthChangesAtHome(s, a, s.instances[l].backends[k]);
      }
    }
    PortSettledFrame(s, s', d, port);
  }

  lemma SectionListeners(s: State, a: SyncStep)
    requires EngineEnabled(s, a) && InSection(s.sync)
    ensures var ls := EngineApply(s, a).listeners; ls == s.listeners || ls == s.listeners - {s.sync.sec.port}
  {}

  lemma HealthChangesAtHome(s: State, a: SyncStep, b: Id)
    requires Inv(s) && EngineEnabled(s, a) && b in s.backends
    requires InSection(s.sync) && s.backends[b].home != s.sync.sec.li
    ensures b in EngineApply(s, a).backends && EngineApply(s, a).backends[b] == s.backends[b]
  {
    if a.DropSwap? || a.StoreActive? {
      assert EntryOk(s, s.sync.sec.li, s.sync.k);
    }
  }

  lemma SectionEndSettles(s: State, d: Desired)
    requires Inv(s) && EngineEnabled(s, SectionEnd) && s.sync.sec.desired == d && SurvivorsBusy(s)
    ensures PortSettled(EngineApply(s, SectionEnd), d, s.sync.sec.port)
  {
    var entries := Entries(s);
    forall k | k in entries && k !in TargetsOf(s.sync.sec)
      ensures s.backends[entries[k]].conns != 0
    {
      assert Survivor(s, k);
    }
  }

  lemma SectionMoves(s: State, a: SyncStep)
    requires EngineEnabled(s, a) && InSection(s.sync)
    ensures var y := EngineApply(s, a).sync;
            if a.SectionEnd? then y == Ports(s.sync.sec.desired, s.sync.sec.todo)
            else InSection(y) && y.sec == s.sync.sec
  {}

  /** A step inside a section leaves every other port as it was settled. */
  lemma OthersStaySettled(s: State, a: SyncStep, d: Desired)
    requires Inv(s) && EngineEnabled(s, a) && InSection(s.sync)
    ensures forall p | PortSettled(s, d, p) && p != s.sync.sec.port :: PortSettled(EngineApply(s, a), d, p)
  {
    forall p | PortSettled(s, d, p) && p != s.sync.sec.port
      ensures PortSettled(EngineApply(s, a), d, p)
    {
      OtherPortStays(s, a, d, p);
    }
  }

  lemma SectionSettling(s: State, a: SyncStep, d: Desired)
    requires Inv(s) && EngineEnabled(s, a) && Settling(s, d) && InSection(s.sync)
    ensures Settling(EngineApply(s, a), d)
  {
    SectionMoves(s, a);
    SectionListeners(s, a);
    OthersStaySettled(s, a, d);
    if a.SectionEnd? {
      SectionEndSettles(s, d);
    } else {
      EngineSurvivorsBusy(s, a);
    }
  }

  lemma EngineSettling(s: State, a: SyncStep, d: Desired)
    requires Inv(s) && EngineEnabled(s, a) && Settling(s, d) && !a.End?
    ensures Settling(EngineApply(s, a), d)
  {
    if InSection(s.sync) {
      SectionSettling(s, a, d);
    } else if a.TakePort? {
      forall p | PortSettled(s, d, p)
        ensures PortSettled(EngineApply(s, a), d, p)
      {}
    }
  }

  /** Steps from..until are all sync steps: one sync of `routes`, without connection events. */
  ghost predicate QuietSync(r: Run, from: nat, until: nat, routes: seq<RegistryState.ServiceRoute>) {
    && r.Steps() && from < until < |r.actions|
    && forall m | from <= m <= until ::
         && r.actions[m].Engine?
         && (m == from ==> r.actions[m].step == Begin(routes))
         && (r.actions[m].step == End <==> m == until)
  }

  lemma SettlingStep(r: Run, from: nat, until: nat, routes: seq<RegistryState.ServiceRoute>, n: nat)
    requires r.FromInit() && QuietSync(r, from, until, routes) && from <= n < until
    requires n > from ==> Settling(r.states[n], DesiredTable(routes))
    ensures Settling(r.states[n + 1], DesiredTable(routes))
  {
    var a := r.actions[n].step;
    assert r.states[n + 1] == EngineApply(r.states[n], a);
    if n > from {
      RunInv(r, n);
      EngineSettling(r.states[n], a, DesiredTable(routes));
    }
  }

  lemma {:induction false} SettlingLasts(r: Run, from: nat, until: nat, routes: seq<RegistryState.ServiceRoute>, n: nat)
    requires r.FromInit() && QuietSync(r, from, until, routes) && from < n <= until
    ensures Settling(r.states[n], DesiredTable(routes))
  {
    if n > from + 1 {
      SettlingLasts(r, from, until, routes, n - 1);
    }
    SettlingStep(r, from, until, routes, n - 1);
  }

  lemma SyncSettles(r: Run, from: nat, until: nat, routes: seq<RegistryState.ServiceRoute>)
    requires r.FromInit() && QuietSync(r, from, until, routes)
    ensures Settled(r.states[until + 1], DesiredTable(routes))
  {
    SettlingLasts(r, from, until, routes, until);
    assert r.actions[until].step == End;
  }

  // ---- repeating it ----

  /** The state differs from `base` in the sync's position only, which is never at a write. */
  ghost predicate Unchanged(base: State, s: State, d: Desired) {
    && s == base.(sync := s.sync)
    && match s.sync
       case Idle => false
       case Stopped => false
       case Listening(e, _) => e == d
       case Ports(e, _) => e == d
       case DropSwapping(_, _, _) => false
       case Storing(_, _, _) => false
       case _ => s.sync.sec.desired == d
  }

  lemma EngineUnchanged(base: State, s: State, a: SyncStep, d: Desired)
    requires Inv(s) && EngineEnabled(s, a) && Unchanged(base, s, d) && Settled(base, d)
    requires !a.ListenOk? && !a.End?
    ensures Unchanged(base, EngineApply(s, a), d)
  {
    if InSection(s.sync) {
      assert PortSettled(base, d, s.sync.sec.port);
      assert Entries(s) == base.instances[s.sync.sec.li].backends;
    }
  }

  lemma UnchangedStep(r: Run, from: nat, until: nat, routes: seq<RegistryState.ServiceRoute>, n: nat)
    requires r.FromInit() && QuietSync(r, from, until, routes) && from <= n < until
    requires Settled(r.states[from], DesiredTable(routes)) && !r.actions[n].step.ListenOk?
    requires n > from ==> Unchanged(r.states[from], r.states[n], DesiredTable(routes))
    ensures Unchanged(r.states[from], r.states[n + 1], DesiredTable(routes))
  {
    var a := r.actions[n].step;
    assert r.states[n + 1] == EngineApply(r.states[n], a);
    if n > from {
      RunInv(r, n);
      EngineUnchanged(r.states[from], r.states[n], a, DesiredTable(routes));
    }
  }

  lemma {:induction false} UnchangedLasts(
    r: Run, from: nat, until: nat, routes: seq<RegistryState.ServiceRoute>, n: nat)
    requires r.FromInit() && QuietSync(r, from, until, routes) && from < n <= until
    requires Settled(r.states[from], DesiredTable(routes))
    requires forall m | from <= m < until :: !r.actions[m].step.ListenOk?
    ensures Unchanged(r.states[from], r.states[n], DesiredTable(routes))
  {
    if n > from + 1 {
      UnchangedLasts(r, from, until, routes, n - 1);
    }
    UnchangedStep(r, from, until, routes, n - 1);
  }

  /** Two syncs of the same snapshot in a row, with no connection events and with the ports
      that could not be opened still failing, leave the engine exactly as one does. */
  lemma RepeatedSyncIsNoOp(r: Run, a: nat, b: nat, c: nat, routes: seq<RegistryState.ServiceRoute>)
    requires r.FromInit() && QuietSync(r, a, b, routes) && QuietSync(r, b + 1, c, routes)
    requires forall m | b + 1 < m < c :: !r.actions[m].step.ListenOk?
    ensures r.states[c + 1] == r.states[b + 1]
  {
    SyncSettles(r, a, b, routes);
    assert r.actions[b].step == End && r.actions[b + 1].step == Begin(routes) && r.actions[c].step == End;
    UnchangedLasts(r, b + 1, c, routes, c);
  }
}
