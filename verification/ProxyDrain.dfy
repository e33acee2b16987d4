/** Draining: connection counters are exact, a dropped port only loses connections, and
    its listener is closed by the first sync that finds none left. */
module ProxyDrain {
  import opened Routing
  import opened Proxy
  import opened ProxyInvariant
  import opened ProxySafety

  predicate IsCounted(hd: Handler) {
    hd.Counted? || hd.Tripping? || hd.Swapping? || hd.Leaving?
  }

  function CountedOn(s: State, b: Id): set<Id> {
    set h | h in s.handlers && IsCounted(s.handlers[h]) && s.handlers[h].b == b
  }

  /** activeConns is exactly the number of handlers between their Add(1) and Add(-1). */
  ghost predicate CountsOk(s: State) {
    forall b | b in s.backends :: s.backends[b].conns == |CountedOn(s, b)|
  }

  function Share(hd: Handler, b: Id): int {
    if IsCounted(hd) && hd.b == b then 1 else 0
  }

  /** A handler step moves one handler, and the counter of a backend with it. */
  lemma ConnMovesOne(s: State, h: Id, e: Event)
    requires ConnEnabled(s, h, e)
    ensures var s' := ConnApply(s, h, e);
            && s'.handlers.Keys == s.handlers.Keys && s'.backends.Keys == s.backends.Keys
            && (forall g | g in s.handlers && g != h :: s'.handlers[g] == s.handlers[g])
            && (forall b | b in s.backends ::
                  s'.backends[b].conns == s.backends[b].conns + Share(s'.handlers[h], b) - Share(s.handlers[h], b))
  {}

  lemma ConnCounts(s: State, h: Id, e: Event)
    requires CountsOk(s) && ConnEnabled(s, h, e)
    ensures CountsOk(ConnApply(s, h, e))
  {
    var s' := ConnApply(s, h, e);
    ConnMovesOne(s, h, e);
    forall b | b in s'.backends
      ensures s'.backends[b].conns == |CountedOn(s', b)|
    {
      MovedCount(s, s', h, b);
    }
  }

  lemma WithoutOne<T>(a: set<T>, x: T)
    ensures |a| == |a - {x}| + (if x in a then 1 else 0)
  {
    if x in a {
      assert a == (a - {x}) + {x};
    } else {
      assert a == a - {x};
    }
  }

  lemma MovedCount(s: State, s': State, h: Id, b: Id)
    requires h in s.handlers && s'.handlers.Keys == s.handlers.Keys
    requires forall g | g in s.handlers && g != h :: s'.handlers[g] == s.handlers[g]
    ensures |CountedOn(s', b)| == |CountedOn(s, b)| + Share(s'.handlers[h], b) - Share(s.handlers[h], b)
  {
    assert CountedOn(s, b) - {h} == CountedOn(s', b) - {h};
    WithoutOne(CountedOn(s, b), h);
    WithoutOne(CountedOn(s', b), h);
    assert h in CountedOn(s, b) <==> Share(s.handlers[h], b) == 1;
    assert h in CountedOn(s', b) <==> Share(s'.handlers[h], b) == 1;
  }

  lemma EngineCounts(s: State, a: SyncStep)
    requires CountsOk(s) && HandlersOk(s) && EngineEnabled(s, a)
    ensures CountsOk(EngineApply(s, a))
  {
    var s' := EngineApply(s, a);
    EngineHealthOnly(s, a);
    forall b | b in s'.backends
      ensures s'.backends[b].conns == |CountedOn(s', b)|
    {
      assert CountedOn(s', b) == CountedOn(s, b);
      if b !in s.backends {
        assert CountedOn(s, b) == {} by {
          assert forall h | h in s.handlers :: HandlerOk(s, s.handlers[h]);
        }
      }
    }
  }

  lemma StepCounts(s: State, a: Action)
    requires CountsOk(s) && HandlersOk(s) && Enabled(s, a)
    ensures CountsOk(Apply(s, a))
  {
    match a
    case Accept(h, li) =>
      assert forall b | b in s.backends :: CountedOn(Apply(s, a), b) == CountedOn(s, b);
    case Conn(h, e) => ConnCounts(s, h, e);
    case Engine(step) => EngineCounts(s, step);
  }

  /** In every state of every run the counters equal the counted handlers. */
  lemma {:induction false} CountersAreExact(r: Run, n: nat)
    requires r.FromInit() && n < |r.states|
    ensures CountsOk(r.states[n])
  {
    if n > 0 {
      CountersAreExact(r, n - 1);
      RunInv(r, n - 1);
      StepCounts(r.states[n - 1], r.actions[n - 1]);
    }
  }

  // ---- handlers that hold a backend of a port ----

  predicate HoldsBackend(hd: Handler) {
    hd.Picked? || IsCounted(hd)
  }

  function Holding(s: State, port: int): set<Id> {
    set h | h in s.handlers && HoldsBackend(s.handlers[h])
            && s.handlers[h].li in s.instances && s.instances[s.handlers[h].li].port == port
  }

  predicate Wants(y: Sync, port: int) {
    match y
    case Idle => false
    case Stopped => false
    case Listening(d, _) => port in d
    case Ports(d, _) => port in d
    case _ => port in y.sec.desired
  }

  predicate RelistsPort(a: Action, port: int) {
    a.Engine? && a.step.Begin? && port in DesiredTable(a.step.routes)
  }

  /** Nothing on the port can be picked, and no sync under way will change that. */
  ghost predicate ColdPort(s: State, port: int) {
    !Wants(s.sync, port) && forall k :: Dropped(s, port, k)
  }

  lemma WantsSteps(s: State, a: SyncStep, port: int)
    requires EngineEnabled(s, a) && !Wants(s.sync, port) && !RelistsPort(Engine(a), port)
    ensures !Wants(EngineApply(s, a).sync, port)
  {}

  lemma StepKeepsCold(s: State, a: Action, port: int)
    requires Inv(s) && Enabled(s, a) && ColdPort(s, port) && !RelistsPort(a, port)
    ensures ColdPort(Apply(s, a), port)
  {
    forall k
      ensures Dropped(Apply(s, a), port, k)
    {
      assert Dropped(s, port, k);
      StepKeepsQuiet(s, a, port, k);
    }
    match a
    case Accept(_, _) =>
    case Conn(h, e) => ConnApplyFrame(s, h, e);
    case Engine(step) => WantsSteps(s, step, port);
  }

  lemma ConnHolds(s: State, h: Id, e: Event)
    requires ConnEnabled(s, h, e) && !e.Pick?
    ensures var hd, hd' := s.handlers[h], ConnApply(s, h, e).handlers[h];
            HoldsBackend(hd') ==> HoldsBackend(hd) && hd'.li == hd.li
  {}

  lemma ConnShrinksHolding(s: State, h: Id, e: Event, port: int)
    requires Inv(s) && ConnEnabled(s, h, e) && ColdPort(s, port)
    ensures Holding(ConnApply(s, h, e), port) <= Holding(s, port)
  {
    ConnApplyFrame(s, h, e);
    ConnMovesOne(s, h, e);
    if e.Pick? {
      QuietNotPicked(s, h, e.k);
    } else {
      ConnHolds(s, h, e);
    }
  }

  lemma StepShrinksHolding(s: State, a: Action, port: int)
    requires Inv(s) && Enabled(s, a) && ColdPort(s, port)
    ensures Holding(Apply(s, a), port) <= Holding(s, port)
  {
    match a
    case Accept(_, _) =>
    case Conn(h, e) => ConnShrinksHolding(s, h, e, port);
    case Engine(step) =>
      EngineApplyFrame(s, step);
      forall h | h in s.handlers
        ensures HandlerOk(s, s.handlers[h])
      {}
  }

  lemma {:induction false} ColdLasts(r: Run, i: nat, j: nat, port: int)
    requires r.FromInit() && i <= j < |r.states| && ColdPort(r.states[i], port)
    requires forall m | i <= m < j :: !RelistsPort(r.actions[m], port)
    ensures ColdPort(r.states[j], port)
    ensures Holding(r.states[j], port) <= Holding(r.states[i], port)
  {
    if i < j {
      ColdLasts(r, i, j - 1, port);
      RunInv(r, j - 1);
      StepKeepsCold(r.states[j - 1], r.actions[j - 1], port);
      StepShrinksHolding(r.states[j - 1], r.actions[j - 1], port);
    }
  }

  lemma SectionEndCools(s: State)
    requires Inv(s) && EngineEnabled(s, SectionEnd) && s.sync.sec.port !in s.sync.sec.desired
    ensures ColdPort(EngineApply(s, SectionEnd), s.sync.sec.port)
  {
    forall k {
      SectionEndDrops(s, k);
    }
  }

  /** Once a sync has processed a port that its snapshot does not list, and as long as no
      later snapshot lists it, the handlers holding one of the port's backends at a later
      moment are among those that held one earlier. */
  lemma HoldersOnlyLeave(r: Run, i: nat, m: nat, n: nat)
    requires r.FromInit() && i < m <= n < |r.states|
    requires r.actions[i] == Engine(SectionEnd)
    requires r.states[i].sync.sec.port !in r.states[i].sync.sec.desired
    requires forall x | i < x < n :: !RelistsPort(r.actions[x], r.states[i].sync.sec.port)
    ensures Holding(r.states[n], r.states[i].sync.sec.port) <= Holding(r.states[m], r.states[i].sync.sec.port)
  {
    RunInv(r, i);
    SectionEndCools(r.states[i]);
    ColdLasts(r, i + 1, m, r.states[i].sync.sec.port);
    ColdLasts(r, m, n, r.states[i].sync.sec.port);
  }

  // ---- closing the listener ----

  /** How far the sync under way has come in removing an idle, unlisted port. */
  ghost predicate Closing(s: State, port: int) {
    match s.sync
    case Idle => false
    case Stopped => false
    case Listening(d, todo) => port !in todo
    case Ports(d, todo) => port in s.listeners ==> port in todo
    case _ =>
      var sec := s.sync.sec;
      if sec.port != port then port in s.listeners ==> port in sec.todo
      else
        && sec.li in s.instances
        && var entries := s.instances[sec.li].backends;
           match s.sync
           case Dropping(_, keys) => entries.Keys <= keys
           case DropSwapping(_, keys, k) => entries.Keys <= keys + {k}
           case DropChecking(_, keys, k) => entries.Keys <= keys + {k}
           case _ => entries == map[]
  }

  lemma CountedAreHolding(s: State, l: Id, b: Id)
    requires HandlersOk(s) && l in s.instances && b in s.backends && s.backends[b].home == l
    ensures CountedOn(s, b) <= Holding(s, s.instances[l].port)
  {
    assert forall h | h in CountedOn(s, b) :: HandlerOk(s, s.handlers[h]);
  }

  lemma IdleBackend(s: State, l: Id, k: string)
    requires Inv(s) && CountsOk(s) && l in s.instances && k in s.instances[l].backends
    requires Holding(s, s.instances[l].port) == {}
    ensures s.instances[l].backends[k] in s.backends
    ensures s.backends[s.instances[l].backends[k]].conns == 0
  {
    assert EntryOk(s, l, k);
    CountedAreHolding(s, l, s.instances[l].backends[k]);
  }

  lemma OwnSectionCloses(s: State, a: SyncStep, port: int)
    requires Inv(s) && CountsOk(s) && EngineEnabled(s, a) && InSection(s.sync) && s.sync.sec.port == port
    requires Closing(s, port) && !Wants(s.sync, port) && Holding(s, port) == {}
    ensures Closing(EngineApply(s, a), port)
  {
    assert TargetsOf(s.sync.sec) == map[];
    if a.DropCheck? {
      IdleBackend(s, s.sync.sec.li, s.sync.k);
    }
  }

  lemma ElsewhereCloses(s: State, a: SyncStep, port: int)
    requires ListenersOk(s) && EngineEnabled(s, a) && !(InSection(s.sync) && s.sync.sec.port == port)
    requires Closing(s, port) && !Wants(s.sync, port) && !a.End?
    ensures Closing(EngineApply(s, a), port)
  {
    if a.TakePort? && a.port == port {
      assert Wanted(s.sync.desired, port) == map[];
    }
  }

  lemma StepKeepsClosing(s: State, a: Action, port: int)
    requires Inv(s) && CountsOk(s) && Enabled(s, a)
    requires Closing(s, port) && !Wants(s.sync, port) && Holding(s, port) == {} && a != Engine(End)
    ensures Closing(Apply(s, a), port)
  {
    match a
    case Accept(_, _) =>
    case Conn(h, e) =>
      ConnApplyFrame(s, h, e);
    case Engine(step) =>
      if InSection(s.sync) && s.sync.sec.port == port {
        OwnSectionCloses(s, step, port);
      } else {
        ElsewhereCloses(s, step, port);
      }
  }

  lemma {:induction false} ClosingLasts(r: Run, i: nat, j: nat, port: int)
    requires r.FromInit() && i < j < |r.states|
    requires r.actions[i].Engine? && r.actions[i].step.Begin? && !RelistsPort(r.actions[i], port)
    requires ColdPort(r.states[i], port) && Holding(r.states[i], port) == {}
    requires forall m | i < m < j :: r.actions[m] != Engine(End)
    ensures Closing(r.states[j], port) && ColdPort(r.states[j], port) && Holding(r.states[j], port) == {}
  {
    RunInv(r, j - 1);
    CountersAreExact(r, j - 1);
    if j > i + 1 {
      ClosingLasts(r, i, j - 1, port);
      assert !RelistsPort(r.actions[j - 1], port);
      StepKeepsClosing(r.states[j - 1], r.actions[j - 1], port);
    }
    StepKeepsCold(r.states[j - 1], r.actions[j - 1], port);
    StepShrinksHolding(r.states[j - 1], r.actions[j - 1], port);
  }

  /** A port that has left the snapshots for good is closed at the latest by the first sync
      that begins when no handler holds one of its backends: when that sync ends, the
      engine has no listener on the port. */
  lemma DrainedPortIsClosed(r: Run, i: nat, begin: nat, end: nat)
    requires r.FromInit() && i < begin < end < |r.actions|
    requires r.actions[i] == Engine(SectionEnd)
    requires r.states[i].sync.sec.port !in r.states[i].sync.sec.desired
    requires forall m | i < m < end :: !RelistsPort(r.actions[m], r.states[i].sync.sec.port)
    requires r.actions[begin].Engine? && r.actions[begin].step.Begin?
    requires Holding(r.states[begin], r.states[i].sync.sec.port) == {}
    requires forall m | begin < m < end :: r.actions[m] != Engine(End)
    requires r.actions[end] == Engine(End)
    ensures r.states[i].sync.sec.port !in r.states[end + 1].listeners
  {
    var port := r.states[i].sync.sec.port;
    RunInv(r, i);
    SectionEndCools(r.states[i]);
    ColdLasts(r, i + 1, begin, port);
    ClosingLasts(r, begin, end, port);
  }

  // ---- shutting down ----

  lemma StoppedStep(s: State, a: Action)
    requires Enabled(s, a) && s.sync == Stopped
    ensures Apply(s, a).sync == Stopped && Apply(s, a).listeners == s.listeners
  {
    match a
    case Accept(_, _) =>
    case Conn(h, e) => ConnApplyFrame(s, h, e);
    case Engine(step) =>
  }

  /** Shutting down closes every listener, and none is opened again. */
  lemma {:induction false} ShutdownIsFinal(r: Run, i: nat, n: nat)
    requires r.Steps() && i < n < |r.states| && r.actions[i] == Engine(Shutdown)
    ensures r.states[n].listeners == map[] && r.states[n].sync == Stopped
  {
    if n > i + 1 {
      ShutdownIsFinal(r, i, n - 1);
      StoppedStep(r.states[n - 1], r.actions[n - 1]);
    }
  }
}
