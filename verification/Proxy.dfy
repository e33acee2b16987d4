/** The proxy engine as a state machine.  A step is one atomic operation on a backend or
    one critical section of a listener lock; connection handlers and the single sync
    goroutine interleave freely.  Backend and listener objects have identities, because
    handlers keep pointers to them after the engine has dropped them. */
module Proxy {
  import Registry
  import RegistryState
  import opened Routing

  type Id = nat

  datatype Health = Active | Draining | Unhealthy

  /** `home` names the listener instance that created the backend; it is never changed. */
  datatype Backend = Backend(target: Registry.BackendKey, home: Id, health: Health, conns: int, fails: int)

  datatype Instance = Instance(port: int, backends: map<string, Id>)

  datatype Handler =
    | Accepted(li: Id)
    | Picked(li: Id, b: Id)                  // chosen, not yet counted
    | Counted(li: Id, b: Id)                 // counted, dialing
    | Tripping(li: Id, b: Id)                // third failure: markUnhealthy about to load
    | Swapping(li: Id, b: Id, seen: Health)  // markUnhealthy about to compare-and-swap
    | Leaving(li: Id, b: Id)                 // proxying or returning, still counted
    | Released(li: Id, b: Id, remaining: int)
    | Evicting(li: Id, b: Id)                // saw Draining and zero, waiting for the lock
    | Done

  /** A sync's work on one listener, with that listener's lock held. */
  datatype Section = Section(desired: Desired, todo: set<int>, port: int, li: Id)

  datatype Sync =
    | Idle
    | Listening(desired: Desired, todo: set<int>)
    | Ports(desired: Desired, todo: set<int>)
    | Dropping(sec: Section, keys: set<string>)
    | DropSwapping(sec: Section, keys: set<string>, k: string)  // markDraining loaded Active
    | DropChecking(sec: Section, keys: set<string>, k: string)  // markDraining returned
    | Adding(sec: Section, keys: set<string>)
    | Storing(sec: Section, keys: set<string>, k: string)       // saw Draining, about to store Active
    | Stopped

  datatype State = State(backends: map<Id, Backend>, instances: map<Id, Instance>,
                         listeners: map<int, Id>, handlers: map<Id, Handler>, sync: Sync)

  datatype Event =
    | PickNone | Pick(k: string) | Count | DialFail | DialOk
    | LoadHealth | SwapHealth | Release | CheckDraining | Evict

  datatype SyncStep =
    | Begin(routes: seq<RegistryState.ServiceRoute>) | ListenOk(port: int, li: Id) | ListenFail(port: int) | ListenDone
    | TakePort(port: int)
    | DropLoad(k: string) | DropSwap | DropCheck | DropDone
    | AddNew(k: string, b: Id) | AddFound(k: string) | StoreActive
    | SectionEnd | End | Shutdown

  datatype Action = Accept(h: Id, li: Id) | Conn(h: Id, event: Event) | Engine(step: SyncStep)

  const INIT := State(map[], map[], map[], map[], Idle)

  // ---- helpers ----

  predicate InSection(y: Sync) {
    y.Dropping? || y.DropSwapping? || y.DropChecking? || y.Adding? || y.Storing?
  }

  predicate Locked(s: State, li: Id) {
    InSection(s.sync) && s.sync.sec.li == li
  }

  function TargetsOf(sec: Section): Targets {
    Wanted(sec.desired, sec.port)
  }

  function SetHandler(s: State, h: Id, hd: Handler): State {
    s.(handlers := s.handlers[h := hd])
  }

  function SetBackend(s: State, b: Id, bk: Backend): State {
    s.(backends := s.backends[b := bk])
  }

  function SetEntries(s: State, li: Id, entries: map<string, Id>): State
    requires li in s.instances
  {
    s.(instances := s.instances[li := s.instances[li].(backends := entries)])
  }

  // ---- connection handlers ----

  /** The handler's pointers are live objects. */
  predicate Pointers(s: State, hd: Handler) {
    && (!hd.Done? ==> hd.li in s.instances)
    && (!hd.Done? && !hd.Accepted? ==> hd.b in s.backends)
  }

  predicate EntriesLive(s: State, li: Id) {
    li in s.instances && forall k | k in s.instances[li].backends :: s.instances[li].backends[k] in s.backends
  }

  predicate ConnEnabled(s: State, h: Id, e: Event) {
    && h in s.handlers && Pointers(s, s.handlers[h])
    && var hd := s.handlers[h];
       match e
       case PickNone =>
         hd.Accepted? && !Locked(s, hd.li) && EntriesLive(s, hd.li)
         && forall k | k in s.instances[hd.li].backends ::
              s.backends[s.instances[hd.li].backends[k]].health != Active
       case Pick(k) =>
         hd.Accepted? && !Locked(s, hd.li) && EntriesLive(s, hd.li)
         && k in s.instances[hd.li].backends
         && s.backends[s.instances[hd.li].backends[k]].health == Active
       case Count => hd.Picked?
       case DialFail => hd.Counted?
       case DialOk => hd.Counted?
       case LoadHealth => hd.Tripping?
       case SwapHealth => hd.Swapping?
       case Release => hd.Leaving?
       case CheckDraining => hd.Released?
       case Evict => hd.Evicting? && !Locked(s, hd.li)
  }

  function ConnApply(s: State, h: Id, e: Event): State
    requires ConnEnabled(s, h, e)
  {
    var hd := s.handlers[h];
    match e
    case PickNone => SetHandler(s, h, Done)
    case Pick(k) => SetHandler(s, h, Picked(hd.li, s.instances[hd.li].backends[k]))
    case Count =>
      var bk := s.backends[hd.b];
      SetHandler(SetBackend(s, hd.b, bk.(conns := bk.conns + 1)), h, Counted(hd.li, hd.b))
    case DialFail =>
      var bk := s.backends[hd.b];
      SetHandler(SetBackend(s, hd.b, bk.(fails := bk.fails + 1)), h,
                 if bk.fails + 1 >= 3 then Tripping(hd.li, hd.b) else Leaving(hd.li, hd.b))
    case DialOk =>
      SetHandler(SetBackend(s, hd.b, s.backends[hd.b].(fails := 0)), h, Leaving(hd.li, hd.b))
    case LoadHealth =>
      var now := s.backends[hd.b].health;
      SetHandler(s, h, if now == Unhealthy then Leaving(hd.li, hd.b) else Swapping(hd.li, hd.b, now))
    case SwapHealth =>
      var bk := s.backends[hd.b];
      if bk.health == hd.seen then
        SetHandler(SetBackend(s, hd.b, bk.(health := Unhealthy)), h, Leaving(hd.li, hd.b))
      else SetHandler(s, h, Tripping(hd.li, hd.b))
    case Release =>
      var bk := s.backends[hd.b];
      SetHandler(SetBackend(s, hd.b, bk.(conns := bk.conns - 1)), h, Released(hd.li, hd.b, bk.conns - 1))
    case CheckDraining =>
      SetHandler(s, h, if s.backends[hd.b].health == Draining && hd.remaining == 0
                       then Evicting(hd.li, hd.b) else Done)
    case Evict =>
      var k := KeyOf(s.backends[hd.b].target);
      var entries := s.instances[hd.li].backends;
      if k in entries && entries[k] == hd.b && s.backends[hd.b].conns == 0 then
        SetHandler(SetEntries(s, hd.li, entries - {k}), h, Done)
      else SetHandler(s, h, Done)
  }

  // ---- the sync goroutine ----

  predicate SectionLive(s: State) {
    InSection(s.sync) ==> EntriesLive(s, s.sync.sec.li)
  }

  function Entries(s: State): map<string, Id>
    requires InSection(s.sync) && SectionLive(s)
  {
    s.instances[s.sync.sec.li].backends
  }

  predicate EngineEnabled(s: State, a: SyncStep) {
    && SectionLive(s)
    && var y := s.sync;
       match a
       case Begin(routes) => y.Idle?
       case ListenOk(port, li) => y.Listening? && port in y.todo && port !in s.listeners && li !in s.instances
       case ListenFail(port) => y.Listening? && port in y.todo && port !in s.listeners
       case ListenDone => y.Listening? && y.todo == {}
       case TakePort(port) => y.Ports? && port in y.todo && port in s.listeners && s.listeners[port] in s.instances
       case DropLoad(k) => y.Dropping? && k in y.keys && k in Entries(s)
       case DropSwap => y.DropSwapping? && y.k in Entries(s)
       case DropCheck => y.DropChecking? && y.k in Entries(s)
       case DropDone => y.Dropping? && y.keys == {}
       case AddNew(k, b) =>
         y.Adding? && k in y.keys && k in TargetsOf(y.sec) && k !in Entries(s) && b !in s.backends
       case AddFound(k) => y.Adding? && k in y.keys && k in Entries(s)
       case StoreActive => y.Storing? && y.k in Entries(s)
       case SectionEnd => y.Adding? && y.keys == {}
       case End => y.Ports? && y.todo == {}
       case Shutdown => y.Idle?
  }

  function EngineApply(s: State, a: SyncStep): State
    requires EngineEnabled(s, a)
  {
    var y := s.sync;
    match a
    case Begin(routes) =>
      var d := DesiredTable(routes);
      s.(sync := Listening(d, d.Keys - s.listeners.Keys))
    case ListenOk(port, li) =>
      s.(instances := s.instances[li := Instance(port, map[])], listeners := s.listeners[port := li],
         sync := Listening(y.desired, y.todo - {port}))
    case ListenFail(port) => s.(sync := Listening(y.desired, y.todo - {port}))
    case ListenDone => s.(sync := Ports(y.desired, s.listeners.Keys))
    case TakePort(port) =>
      var li := s.listeners[port];
      s.(sync := Dropping(Section(y.desired, y.todo - {port}, port, li),
                          s.instances[li].backends.Keys - Wanted(y.desired, port).Keys))
    case DropLoad(k) =>
      if s.backends[Entries(s)[k]].health == Active
      then s.(sync := DropSwapping(y.sec, y.keys - {k}, k))
      else s.(sync := DropChecking(y.sec, y.keys - {k}, k))
    case DropSwap =>
      var b := Entries(s)[y.k];
      if s.backends[b].health == Active
      then SetBackend(s, b, s.backends[b].(health := Draining)).(sync := DropChecking(y.sec, y.keys, y.k))
      else s.(sync := Dropping(y.sec, y.keys + {y.k}))
    case DropCheck =>
      var s' := s.(sync := Dropping(y.sec, y.keys));
      if s.backends[Entries(s)[y.k]].conns == 0 then SetEntries(s', y.sec.li, Entries(s) - {y.k}) else s'
    case DropDone => s.(sync := Adding(y.sec, TargetsOf(y.sec).Keys))
    case AddNew(k, b) =>
      var s' := SetBackend(s, b, Backend(TargetsOf(y.sec)[k], y.sec.li, Active, 0, 0));
      SetEntries(s', y.sec.li, Entries(s)[k := b]).(sync := Adding(y.sec, y.keys - {k}))
    case AddFound(k) =>
      if s.backends[Entries(s)[k]].health == Draining
      then s.(sync := Storing(y.sec, y.keys - {k}, k))
      else s.(sync := Adding(y.sec, y.keys - {k}))
    case StoreActive =>
      var b := Entries(s)[y.k];
      SetBackend(s, b, s.backends[b].(health := Active)).(sync := Adding(y.sec, y.keys))
    case SectionEnd =>
      var closes := y.sec.port !in y.sec.desired && Entries(s) == map[];
      s.(listeners := if closes then s.listeners - {y.sec.port} else s.listeners,
         sync := Ports(y.sec.desired, y.sec.todo))
    case End => s.(sync := Idle)
    case Shutdown => s.(listeners := map[], sync := Stopped)
  }

  // ---- runs ----

  predicate Enabled(s: State, a: Action) {
    match a
    case Accept(h, li) => h !in s.handlers && li in s.instances
    case Conn(h, e) => ConnEnabled(s, h, e)
    case Engine(step) => EngineEnabled(s, step)
  }

  function Apply(s: State, a: Action): State
    requires Enabled(s, a)
  {
    match a
    case Accept(h, li) => SetHandler(s, h, Accepted(li))
    case Conn(h, e) => ConnApply(s, h, e)
    case Engine(step) => EngineApply(s, step)
  }

  /** States and the actions between them, from any starting state. */
  datatype Run = Run(states: seq<State>, actions: seq<Action>) {
    ghost predicate Steps() {
      && |states| == |actions| + 1
      && forall i {:trigger actions[i]} | 0 <= i < |actions| ::
           Enabled(states[i], actions[i]) && states[i + 1] == Apply(states[i], actions[i])
    }

    ghost predicate FromInit() {
      Steps() && states[0] == INIT
    }
  }
}
