/** A concrete run in which a sync overwrites Unhealthy with Active. */
module ProxyWindow {
  import Registry
  import RegistryState
  import opened Routing
  import opened Proxy

  ghost predicate Reachable(s: State) {
    exists r: Run :: r.FromInit() && r.states[|r.states| - 1] == s
  }

  lemma Start()
    ensures Reachable(INIT)
  {
    var r := Run([INIT], []);
    assert r.FromInit() && r.states[|r.states| - 1] == INIT;
  }

  lemma Go(s: State, a: Action, s': State)
    requires Reachable(s) && Enabled(s, a) && Apply(s, a) == s'
    ensures Reachable(s')
  {
    var r: Run :| r.FromInit() && r.states[|r.states| - 1] == s;
    var r' := Run(r.states + [s'], r.actions + [a]);
    assert r'.FromInit() && r'.states[|r'.states| - 1] == s';
  }

  /** A snapshot that lists one backend on port 80. */
  function Routes(t: Registry.BackendKey): seq<RegistryState.ServiceRoute> {
    [RegistryState.ServiceRoute("a", "s", "", "", 80, [t])]
  }

  function Listed(t: Registry.BackendKey): Desired {
    map[80 := map[KeyOf(t) := t]]
  }

  lemma RoutesTable(t: Registry.BackendKey)
    ensures DesiredTable(Routes(t)) == Listed(t) && DesiredTable([]) == map[]
    ensures Listed(t).Keys == {80} && Listed(t)[80].Keys == {KeyOf(t)}
  {
    assert Routes(t)[..0] == [];
    assert [t][..0] == [];
    assert Put(map[], [t]) == Put(map[], [])[KeyOf(t) := t];
  }

  /** One instance on port 80 with one backend. */
  function At(t: Registry.BackendKey, health: Health, conns: int, fails: int,
              handlers: map<Id, Handler>, sync: Sync): State {
    State(map[0 := Backend(t, 0, health, conns, fails)], map[0 := Instance(80, map[KeyOf(t) := 0])],
          map[80 := 0], handlers, sync)
  }

  function Empty(sync: Sync): State {
    State(map[], map[0 := Instance(80, map[])], map[80 := 0], map[], sync)
  }

  lemma FirstListen(t: Registry.BackendKey)
    ensures Reachable(Empty(Ports(Listed(t), {80})))
  {
    RoutesTable(t);
    Start();
    var d := Listed(t);
    var s1 := INIT.(sync := Listening(d, {80}));
    assert {80} - INIT.listeners.Keys == {80};
    Go(INIT, Engine(Begin(Routes(t))), s1);
    var s2 := Empty(Listening(d, {}));
    assert {80} - {80} == {};
    Go(s1, Engine(ListenOk(80, 0)), s2);
    assert s2.listeners.Keys == {80};
    Go(s2, Engine(ListenDone), Empty(Ports(d, {80})));
  }

  lemma FirstTake(t: Registry.BackendKey, sec: Section)
    requires sec == Section(Listed(t), {}, 80, 0) && Reachable(Empty(Ports(Listed(t), {80})))
    ensures Reachable(Empty(Adding(sec, {KeyOf(t)})))
  {
    RoutesTable(t);
    var s1 := Empty(Dropping(sec, {}));
    assert s1.instances[0].backends.Keys - sec.desired[80].Keys == {};
    assert {80} - {80} == {};
    Go(Empty(Ports(Listed(t), {80})), Engine(TakePort(80)), s1);
    Go(s1, Engine(DropDone), Empty(Adding(sec, {KeyOf(t)})));
  }

  lemma FirstAdd(t: Registry.BackendKey, sec: Section)
    requires sec == Section(Listed(t), {}, 80, 0) && Reachable(Empty(Adding(sec, {KeyOf(t)})))
    ensures Reachable(At(t, Active, 0, 0, map[], Adding(sec, {})))
  {
    assert {KeyOf(t)} - {KeyOf(t)} == {};
    Go(Empty(Adding(sec, {KeyOf(t)})), Engine(AddNew(KeyOf(t), 0)), At(t, Active, 0, 0, map[], Adding(sec, {})));
  }

  lemma FinishSync(t: Registry.BackendKey, health: Health, conns: int, handlers: map<Id, Handler>, d: Desired)
    requires Reachable(At(t, health, conns, 0, handlers, Adding(Section(d, {}, 80, 0), {})))
    ensures Reachable(At(t, health, conns, 0, handlers, Idle))
  {
    var s1 := At(t, health, conns, 0, handlers, Adding(Section(d, {}, 80, 0), {}));
    var s2 := At(t, health, conns, 0, handlers, Ports(d, {}));
    assert KeyOf(t) in s1.instances[0].backends;
    Go(s1, Engine(SectionEnd), s2);
    Go(s2, Engine(End), At(t, health, conns, 0, handlers, Idle));
  }

  lemma Choose(t: Registry.BackendKey, n: int, handlers: map<Id, Handler>, h: Id)
    requires Reachable(At(t, Active, n, 0, handlers, Idle)) && h !in handlers
    ensures Reachable(At(t, Active, n, 0, handlers[h := Picked(0, 0)], Idle))
  {
    var s1 := At(t, Active, n, 0, handlers[h := Accepted(0)], Idle);
    Go(At(t, Active, n, 0, handlers, Idle), Accept(h, 0), s1);
    assert s1.handlers[h := Picked(0, 0)] == handlers[h := Picked(0, 0)];
    Go(s1, Conn(h, Pick(KeyOf(t))), At(t, Active, n, 0, handlers[h := Picked(0, 0)], Idle));
  }

  /** One more connection is accepted and counted. */
  lemma Connect(t: Registry.BackendKey, n: int, handlers: map<Id, Handler>, h: Id)
    requires Reachable(At(t, Active, n, 0, handlers, Idle)) && h !in handlers
    ensures Reachable(At(t, Active, n + 1, 0, handlers[h := Counted(0, 0)], Idle))
  {
    Choose(t, n, handlers, h);
    var s1 := At(t, Active, n, 0, handlers[h := Picked(0, 0)], Idle);
    assert s1.handlers[h := Counted(0, 0)] == handlers[h := Counted(0, 0)];
    Go(s1, Conn(h, Count), At(t, Active, n + 1, 0, handlers[h := Counted(0, 0)], Idle));
  }

  lemma BeginSync(t: Registry.BackendKey, health: Health, c: int, handlers: map<Id, Handler>,
                  routes: seq<RegistryState.ServiceRoute>, d: Desired)
    requires Reachable(At(t, health, c, 0, handlers, Idle))
    requires DesiredTable(routes) == d && d.Keys <= {80}
    ensures Reachable(At(t, health, c, 0, handlers, Ports(d, {80})))
  {
    var s1 := At(t, health, c, 0, handlers, Listening(d, {}));
    assert s1.listeners.Keys == {80} && d.Keys - {80} == {};
    Go(At(t, health, c, 0, handlers, Idle), Engine(Begin(routes)), s1);
    Go(s1, Engine(ListenDone), At(t, health, c, 0, handlers, Ports(d, {80})));
  }

  /** Any sync comes to port 80 of the running listener. */
  lemma EnterPort(t: Registry.BackendKey, health: Health, c: int, handlers: map<Id, Handler>,
                  routes: seq<RegistryState.ServiceRoute>, d: Desired)
    requires Reachable(At(t, health, c, 0, handlers, Idle))
    requires DesiredTable(routes) == d && d.Keys <= {80}
    ensures Reachable(At(t, health, c, 0, handlers,
                         Dropping(Section(d, {}, 80, 0), {KeyOf(t)} - Wanted(d, 80).Keys)))
  {
    BeginSync(t, health, c, handlers, routes, d);
    var s1 := At(t, health, c, 0, handlers, Ports(d, {80}));
    assert s1.instances[0].backends.Keys == {KeyOf(t)} && {80} - {80} == {};
    Go(s1, Engine(TakePort(80)),
       At(t, health, c, 0, handlers, Dropping(Section(d, {}, 80, 0), {KeyOf(t)} - Wanted(d, 80).Keys)));
  }

  /** A sync that no longer lists the port starts draining the backend. */
  lemma MarkDraining(t: Registry.BackendKey, c: int, handlers: map<Id, Handler>, sec: Section)
    requires sec == Section(map[], {}, 80, 0)
    requires Reachable(At(t, Active, c, 0, handlers, Dropping(sec, {KeyOf(t)})))
    ensures Reachable(At(t, Draining, c, 0, handlers, DropChecking(sec, {}, KeyOf(t))))
  {
    var s1 := At(t, Active, c, 0, handlers, Dropping(sec, {KeyOf(t)}));
    var s2 := At(t, Active, c, 0, handlers, DropSwapping(sec, {}, KeyOf(t)));
    assert {KeyOf(t)} - {KeyOf(t)} == {};
    Go(s1, Engine(DropLoad(KeyOf(t))), s2);
    Go(s2, Engine(DropSwap), At(t, Draining, c, 0, handlers, DropChecking(sec, {}, KeyOf(t))));
  }

  lemma LeaveDropped(t: Registry.BackendKey, c: int, handlers: map<Id, Handler>, sec: Section)
    requires c != 0 && sec == Section(map[], {}, 80, 0)
    requires Reachable(At(t, Draining, c, 0, handlers, DropChecking(sec, {}, KeyOf(t))))
    ensures Reachable(At(t, Draining, c, 0, handlers, Adding(sec, {})))
  {
    var s1 := At(t, Draining, c, 0, handlers, DropChecking(sec, {}, KeyOf(t)));
    var s2 := At(t, Draining, c, 0, handlers, Dropping(sec, {}));
    Go(s1, Engine(DropCheck), s2);
    var s3 := At(t, Draining, c, 0, handlers, Adding(sec, {}));
    assert TargetsOf(sec).Keys == {};
    Go(s2, Engine(DropDone), s3);
  }

  /** A sync that lists it again stops between its check and its store. */
  lemma CheckListed(t: Registry.BackendKey, c: int, handlers: map<Id, Handler>, sec: Section)
    requires sec == Section(Listed(t), {}, 80, 0)
    requires Reachable(At(t, Draining, c, 0, handlers, Dropping(sec, {})))
    ensures Reachable(At(t, Draining, c, 0, handlers, Storing(sec, {}, KeyOf(t))))
  {
    RoutesTable(t);
    var s1 := At(t, Draining, c, 0, handlers, Adding(sec, {KeyOf(t)}));
    Go(At(t, Draining, c, 0, handlers, Dropping(sec, {})), Engine(DropDone), s1);
    assert {KeyOf(t)} - {KeyOf(t)} == {};
    Go(s1, Engine(AddFound(KeyOf(t))), At(t, Draining, c, 0, handlers, Storing(sec, {}, KeyOf(t))));
  }

  lemma Fail(t: Registry.BackendKey, n: nat, handlers: map<Id, Handler>, y: Sync, h: Id)
    requires Reachable(At(t, Draining, 3, n, handlers, y)) && h in handlers && handlers[h] == Counted(0, 0)
    ensures Reachable(At(t, Draining, 3, n + 1,
                         handlers[h := if n + 1 >= 3 then Tripping(0, 0) else Leaving(0, 0)], y))
  {
    Go(At(t, Draining, 3, n, handlers, y), Conn(h, DialFail),
       At(t, Draining, 3, n + 1, handlers[h := if n + 1 >= 3 then Tripping(0, 0) else Leaving(0, 0)], y));
  }

  lemma Trip(t: Registry.BackendKey, handlers: map<Id, Handler>, y: Sync, h: Id)
    requires Reachable(At(t, Draining, 3, 3, handlers, y)) && h in handlers && handlers[h] == Tripping(0, 0)
    ensures Reachable(At(t, Unhealthy, 3, 3, handlers[h := Leaving(0, 0)], y))
  {
    var s1 := At(t, Draining, 3, 3, handlers[h := Swapping(0, 0, Draining)], y);
    Go(At(t, Draining, 3, 3, handlers, y), Conn(h, LoadHealth), s1);
    Go(s1, Conn(h, SwapHealth), At(t, Unhealthy, 3, 3, handlers[h := Leaving(0, 0)], y));
  }

  lemma Started(t: Registry.BackendKey)
    ensures Reachable(At(t, Active, 0, 0, map[], Idle))
  {
    FirstListen(t);
    FirstTake(t, Section(Listed(t), {}, 80, 0));
    FirstAdd(t, Section(Listed(t), {}, 80, 0));
    FinishSync(t, Active, 0, map[], Listed(t));
  }

  function Dialing(n: nat): (m: map<Id, Handler>)
    ensures forall h: Id :: h in m <==> h < n
    ensures forall h | h in m :: m[h] == Counted(0, 0)
  {
    if n == 0 then map[] else Dialing(n - 1)[n - 1 := Counted(0, 0)]
  }

  lemma {:induction false} ConnectMany(t: Registry.BackendKey, n: nat)
    ensures Reachable(At(t, Active, n, 0, Dialing(n), Idle))
  {
    if n == 0 {
      Started(t);
    } else {
      ConnectMany(t, n - 1);
      Connect(t, n - 1, Dialing(n - 1), n - 1);
    }
  }

  /** A sync that no longer lists the backend leaves it draining, with its connections. */
  lemma Drain(t: Registry.BackendKey, c: int, handlers: map<Id, Handler>)
    requires c != 0 && Reachable(At(t, Active, c, 0, handlers, Idle))
    ensures Reachable(At(t, Draining, c, 0, handlers, Idle))
  {
    RoutesTable(t);
    EnterPort(t, Active, c, handlers, [], map[]);
    assert {KeyOf(t)} - Wanted(map[], 80).Keys == {KeyOf(t)};
    MarkDraining(t, c, handlers, Section(map[], {}, 80, 0));
    LeaveDropped(t, c, handlers, Section(map[], {}, 80, 0));
    FinishSync(t, Draining, c, handlers, map[]);
  }

  /** A sync that lists a draining backend again comes between its check and its store. */
  lemma Relist(t: Registry.BackendKey, c: int, handlers: map<Id, Handler>)
    requires Reachable(At(t, Draining, c, 0, handlers, Idle))
    ensures Reachable(At(t, Draining, c, 0, handlers, Storing(Section(Listed(t), {}, 80, 0), {}, KeyOf(t))))
  {
    RoutesTable(t);
    EnterPort(t, Draining, c, handlers, Routes(t), Listed(t));
    assert {KeyOf(t)} - Wanted(Listed(t), 80).Keys == {};
    CheckListed(t, c, handlers, Section(Listed(t), {}, 80, 0));
  }

  /** Three connections, a sync that drops the backend and one that lists it again and has
      just seen it draining. */
  lemma ReachWindow(t: Registry.BackendKey) returns (handlers: map<Id, Handler>)
    ensures handlers == Dialing(3)
    ensures Reachable(At(t, Draining, 3, 0, handlers, Storing(Section(Listed(t), {}, 80, 0), {}, KeyOf(t))))
  {
    handlers := Dialing(3);
    ConnectMany(t, 3);
    Drain(t, 3, handlers);
    Relist(t, 3, handlers);
  }

  lemma FailThrice(t: Registry.BackendKey, y: Sync) returns (handlers: map<Id, Handler>)
    requires Reachable(At(t, Draining, 3, 0, Dialing(3), y))
    ensures Reachable(At(t, Unhealthy, 3, 3, handlers, y))
  {
    var l: Handler := Leaving(0, 0);
    Fail(t, 0, Dialing(3), y, 0);
    handlers := Dialing(3)[0 := l];
    Fail(t, 1, handlers, y, 1);
    handlers := handlers[1 := l];
    Fail(t, 2, handlers, y, 2);
    handlers := handlers[2 := Tripping(0, 0)];
    Trip(t, handlers, y, 2);
    handlers := handlers[2 := l];
  }

  /** Unhealthy is not final: a reachable state has an unhealthy backend whose next sync
      step makes it active. */
  lemma UnhealthyCanBeOverwritten(t: Registry.BackendKey) returns (s: State)
    ensures Reachable(s) && Enabled(s, Engine(StoreActive))
    ensures 0 in s.backends && s.backends[0].target == t && s.backends[0].health == Unhealthy
    ensures Apply(s, Engine(StoreActive)).backends[0].health == Active
  {
    var handlers := ReachWindow(t);
    var y := Storing(Section(Listed(t), {}, 80, 0), {}, KeyOf(t));
    handlers := FailThrice(t, y);
    s := At(t, Unhealthy, 3, 3, handlers, y);
  }
}
