/** The engine has no deadlock: the sync always has a next step and so has every handler unless
    it waits for the lock of a section, and the steps of a sync bring it nearer to its end. */
module ProxyProgress {
  import opened Routing
  import opened Proxy
  import opened ProxyInvariant
  import opened ProxySafety

  lemma AllLive(s: State)
    requires Inv(s)
    ensures SectionLive(s) && forall l | l in s.instances :: EntriesLive(s, l)
  {
    forall l, k | l in s.instances && k in s.instances[l].backends
      ensures s.instances[l].backends[k] in s.backends
    {
      assert EntryOk(s, l, k);
    }
  }

  // ---- handlers ----

  /** An active backend of the instance. */
  predicate Offers(s: State, li: Id, k: string) {
    && li in s.instances && k in s.instances[li].backends && s.instances[li].backends[k] in s.backends
    && s.backends[s.instances[li].backends[k]].health == Active
  }

  /** In every run, a handler that may take the lock can pick exactly the active backends of
      its instance, and goes away without one exactly if there is none. */
  lemma PicksWhatIsActive(r: Run, n: nat, h: Id)
    requires r.FromInit() && n < |r.states| && h in r.states[n].handlers
    requires r.states[n].handlers[h].Accepted? && !Locked(r.states[n], r.states[n].handlers[h].li)
    ensures var s, li := r.states[n], r.states[n].handlers[h].li;
            && (forall k :: ConnEnabled(s, h, Pick(k)) <==> Offers(s, li, k))
            && (ConnEnabled(s, h, PickNone) <==> forall k :: !Offers(s, li, k))
  {
    RunInv(r, n);
    var s, li := r.states[n], r.states[n].handlers[h].li;
    AllLive(s);
    assert HandlerOk(s, s.handlers[h]);
    forall k | k in s.instances[li].backends
      ensures Offers(s, li, k) <==> s.backends[s.instances[li].backends[k]].health == Active
    {}
  }

  /** What a handler does next. */
  predicate NextEvent(hd: Handler, e: Event) {
    match hd
    case Accepted(_) => e.PickNone? || e.Pick?
    case Picked(_, _) => e.Count?
    case Counted(_, _) => e.DialFail? || e.DialOk?
    case Tripping(_, _) => e.LoadHealth?
    case Swapping(_, _, _) => e.SwapHealth?
    case Leaving(_, _) => e.Release?
    case Released(_, _, _) => e.CheckDraining?
    case Evicting(_, _) => e.Evict?
    case Done => false
  }

  /** In every run a handler can take each of its next steps, except that the first and the
      last wait for the lock while a sync holds it, and that which backend is picked depends on
      what is active. */
  lemma HandlerCanMove(r: Run, n: nat, h: Id, e: Event)
    requires r.FromInit() && n < |r.states| && h in r.states[n].handlers
    ensures var s, hd := r.states[n], r.states[n].handlers[h];
            && (ConnEnabled(s, h, e) ==> NextEvent(hd, e))
            && (NextEvent(hd, e) && !hd.Accepted? && (hd.Evicting? ==> !Locked(s, hd.li)) ==> ConnEnabled(s, h, e))
            && (hd.Accepted? && !Locked(s, hd.li) ==> exists f :: ConnEnabled(s, h, f))
            && ((hd.Accepted? || hd.Evicting?) && Locked(s, hd.li) ==> !ConnEnabled(s, h, e))
  {
    RunInv(r, n);
    var s := r.states[n];
    assert HandlerOk(s, s.handlers[h]);
    if s.handlers[h].Accepted? && !Locked(s, s.handlers[h].li) {
      PicksWhatIsActive(r, n, h);
      if k :| Offers(s, s.handlers[h].li, k) {
        assert ConnEnabled(s, h, Pick(k));
      } else {
        assert ConnEnabled(s, h, PickNone);
      }
    }
  }

  // ---- the sync ----

  /** Ports still to be listened on have no listener yet. */
  ghost predicate UnlistenedTodo(s: State) {
    s.sync.Listening? ==> s.sync.todo !! s.listeners.Keys
  }

  lemma ListeningMoves(s: State, a: SyncStep)
    requires EngineEnabled(s, a) && EngineApply(s, a).sync.Listening?
    ensures var y, y' := s.sync, EngineApply(s, a).sync;
            match a
            case Begin(routes) => y'.todo !! EngineApply(s, a).listeners.Keys
            case ListenOk(p, li) => y.Listening? && p in y.todo && y'.todo == y.todo - {p}
                                    && EngineApply(s, a).listeners == s.listeners[p := li]
            case ListenFail(p) => y.Listening? && p in y.todo && y'.todo == y.todo - {p}
                                  && EngineApply(s, a).listeners == s.listeners
            case _ => false
  {}

  lemma UnlistenedStep(s: State, a: Action)
    requires Enabled(s, a) && UnlistenedTodo(s)
    ensures UnlistenedTodo(Apply(s, a))
  {
    match a
    case Accept(_, _) =>
    case Conn(h, e) => ConnApplyFrame(s, h, e);
    case Engine(step) =>
      if EngineApply(s, step).sync.Listening? {
        ListeningMoves(s, step);
      }
  }

  lemma {:induction false} UnlistenedInRun(r: Run, n: nat)
    requires r.FromInit() && n < |r.states|
    ensures UnlistenedTodo(r.states[n])
  {
    if n > 0 {
      UnlistenedInRun(r, n - 1);
      UnlistenedStep(r.states[n - 1], r.actions[n - 1]);
    }
  }

  lemma {:induction false} FreshId(ids: set<Id>) returns (b: Id)
    ensures b !in ids && forall i | i in ids :: i < b
  {
    b := 0;
    if ids != {} {
      var i :| i in ids;
      b := FreshId(ids - {i});
      assert forall j | j in ids :: j in ids - {i} || j == i;
      b := if b <= i then i + 1 else b;
    }
  }

  /** The next step of a section. */
  lemma SectionStep(s: State) returns (a: SyncStep)
    requires Inv(s) && InSection(s.sync)
    ensures EngineEnabled(s, a) && !a.Begin? && !a.Shutdown?
  {
    AllLive(s);
    match s.sync
    case Dropping(_, keys) =>
      if keys != {} {
        var k :| k in keys;
        a := DropLoad(k);
      } else {
        a := DropDone;
      }
    case DropSwapping(_, keys, k) =>
      assert k in keys + {k};
      a := DropSwap;
    case DropChecking(_, keys, k) =>
      assert k in keys + {k};
      a := DropCheck;
    case Adding(_, keys) => a := AddingStep(s, keys);
    case Storing(_, _, _) => a := StoreActive;
  }

  lemma AddingStep(s: State, keys: set<string>) returns (a: SyncStep)
    requires Inv(s) && SectionLive(s) && s.sync.Adding? && s.sync.keys == keys
    ensures EngineEnabled(s, a) && !a.Begin? && !a.Shutdown?
  {
    if keys != {} {
      var k :| k in keys;
      if k in Entries(s) {
        a := AddFound(k);
      } else {
        var b := FreshId(s.backends.Keys);
        a := AddNew(k, b);
      }
    } else {
      a := SectionEnd;
    }
  }

  lemma PickOne<T>(todo: set<T>) returns (p: T)
    requires todo != {}
    ensures p in todo
  {
    p :| p in todo;
  }

  lemma ListeningStep(s: State, todo: set<int>) returns (a: SyncStep)
    requires UnlistenedTodo(s) && !InSection(s.sync) && s.sync.Listening? && s.sync.todo == todo
    ensures EngineEnabled(s, a) && !a.Begin? && !a.Shutdown?
  {
    if todo != {} {
      var p := PickOne(todo);
      a := ListenFail(p);
    } else {
      a := ListenDone;
    }
  }

  lemma PortsStep(s: State, todo: set<int>) returns (a: SyncStep)
    requires ListenersOk(s) && SyncRefs(s) && !InSection(s.sync) && s.sync.Ports? && s.sync.todo == todo
    ensures EngineEnabled(s, a) && !a.Begin? && !a.Shutdown?
  {
    if todo != {} {
      var p := PickOne(todo);
      a := TakePort(p);
    } else {
      a := End;
    }
  }

  /** In every run, until it is shut down the sync goroutine has a next step: a sync under way
      never gets stuck, and an idle one can begin with any snapshot. */
  lemma SyncCanMove(r: Run, n: nat) returns (a: SyncStep)
    requires r.FromInit() && n < |r.states| && !r.states[n].sync.Stopped?
    ensures EngineEnabled(r.states[n], a) && (a.Begin? || a.Shutdown? ==> r.states[n].sync.Idle?)
    ensures r.states[n].sync.Idle? ==> forall routes :: EngineEnabled(r.states[n], Begin(routes))
  {
    RunInv(r, n);
    UnlistenedInRun(r, n);
    var s := r.states[n];
    match s.sync
    case Idle => a := Begin([]);
    case Listening(_, todo) => a := ListeningStep(s, todo);
    case Ports(_, todo) => a := PortsStep(s, todo);
    case _ => a := SectionStep(s);
  }

  // ---- and it ends ----

  /** How far a sync is from its end: the phase, the ports left, the part of the section, and
      what is left of that part. */
  datatype Rank = Rank(phase: nat, ports: nat, part: nat, left: nat) {
    predicate Below(r: Rank) {
      || phase < r.phase
      || (phase == r.phase && ports < r.ports)
      || (phase == r.phase && ports == r.ports && part < r.part)
      || (phase == r.phase && ports == r.ports && part == r.part && left < r.left)
    }
  }

  function RankOf(y: Sync): Rank {
    match y
    case Idle => Rank(0, 0, 0, 0)
    case Stopped => Rank(0, 0, 0, 0)
    case Listening(_, todo) => Rank(2, |todo|, 0, 0)
    case Ports(_, todo) => Rank(1, |todo|, 0, 0)
    case Dropping(sec, keys) => Rank(1, |sec.todo|, 2, 3 * |keys|)
    case DropSwapping(sec, keys, _) => Rank(1, |sec.todo|, 2, 3 * |keys| + 2)
    case DropChecking(sec, keys, _) => Rank(1, |sec.todo|, 2, 3 * |keys| + 1)
    case Adding(sec, keys) => Rank(1, |sec.todo|, 1, 2 * |keys|)
    case Storing(sec, keys, _) => Rank(1, |sec.todo|, 1, 2 * |keys| + 1)
  }

  lemma OneLess<T>(a: set<T>, x: T)
    requires x in a
    ensures |a - {x}| == |a| - 1
  {}

  /** The drop loop lost its compare-and-swap. */
  predicate LostSwap(s: State, a: SyncStep) {
    a.DropSwap? && EngineEnabled(s, a) && s.backends[Entries(s)[s.sync.k]].health != Active
  }

  lemma PortsMove(s: State, a: SyncStep)
    requires EngineEnabled(s, a) && s.sync.Ports?
    ensures var y := EngineApply(s, a).sync;
            match a
            case TakePort(p) => p in s.sync.todo && y.Dropping? && y.sec.todo == s.sync.todo - {p}
            case End => y == Idle
            case _ => false
  {}

  lemma ListeningNearsEnd(s: State, a: SyncStep)
    requires EngineEnabled(s, a) && s.sync.Listening?
    ensures RankOf(EngineApply(s, a).sync).Below(RankOf(s.sync))
  {
    if EngineApply(s, a).sync.Listening? {
      ListeningMoves(s, a);
      OneLess(s.sync.todo, a.port);
    }
  }

  lemma PortsNearEnd(s: State, a: SyncStep)
    requires EngineEnabled(s, a) && s.sync.Ports?
    ensures RankOf(EngineApply(s, a).sync).Below(RankOf(s.sync))
  {
    PortsMove(s, a);
    if a.TakePort? {
      OneLess(s.sync.todo, a.port);
    }
  }

  lemma DropMoves(s: State, a: SyncStep)
    requires EngineEnabled(s, a) && (a.DropLoad? || a.DropSwap?) && !LostSwap(s, a)
    ensures var y, y' := s.sync, EngineApply(s, a).sync;
            match a
            case DropLoad(k) =>
              && y.Dropping? && k in y.keys
              && (y' == DropSwapping(y.sec, y.keys - {k}, k) || y' == DropChecking(y.sec, y.keys - {k}, k))
            case _ => y.DropSwapping? && y' == DropChecking(y.sec, y.keys, y.k)
  {}

  lemma CheckMoves(s: State)
    requires EngineEnabled(s, DropCheck)
    ensures s.sync.DropChecking? && EngineApply(s, DropCheck).sync == Dropping(s.sync.sec, s.sync.keys)
  {}

  lemma DoneMoves(s: State)
    requires EngineEnabled(s, DropDone)
    ensures s.sync.Dropping? && EngineApply(s, DropDone).sync == Adding(s.sync.sec, TargetsOf(s.sync.sec).Keys)
  {}

  lemma DroppingNearsEnd(s: State, a: SyncStep)
    requires EngineEnabled(s, a) && (s.sync.Dropping? || s.sync.DropSwapping? || s.sync.DropChecking?)
    requires !LostSwap(s, a)
    ensures RankOf(EngineApply(s, a).sync).Below(RankOf(s.sync))
  {
    match a
    case DropLoad(k) =>
      DropMoves(s, a);
      OneLess(s.sync.keys, k);
    case DropSwap => DropMoves(s, a);
    case DropCheck => CheckMoves(s);
    case DropDone => DoneMoves(s);
  }

  lemma AddNewMoves(s: State, k: string, b: Id)
    requires EngineEnabled(s, AddNew(k, b))
    ensures k in s.sync.keys && EngineApply(s, AddNew(k, b)).sync == Adding(s.sync.sec, s.sync.keys - {k})
  {}

  lemma AddFoundMoves(s: State, k: string)
    requires EngineEnabled(s, AddFound(k))
    ensures var y := EngineApply(s, AddFound(k)).sync;
            && k in s.sync.keys && s.sync.Adding?
            && (y == Adding(s.sync.sec, s.sync.keys - {k}) || y == Storing(s.sync.sec, s.sync.keys - {k}, k))
  {}

  lemma AddingNearsEnd(s: State, a: SyncStep)
    requires EngineEnabled(s, a) && (s.sync.Adding? || s.sync.Storing?)
    ensures RankOf(EngineApply(s, a).sync).Below(RankOf(s.sync))
  {
    match a
    case AddNew(k, b) =>
      AddNewMoves(s, k, b);
      OneLess(s.sync.keys, k);
    case AddFound(k) =>
      AddFoundMoves(s, k);
      OneLess(s.sync.keys, k);
    case StoreActive =>
    case SectionEnd =>
  }

  /** Every step of a sync brings it nearer to its end, except a lost compare-and-swap. */
  lemma StepNearsEnd(s: State, a: SyncStep)
    requires EngineEnabled(s, a) && !a.Begin? && !a.Shutdown? && !LostSwap(s, a)
    ensures RankOf(EngineApply(s, a).sync).Below(RankOf(s.sync))
  {
    if s.sync.Listening? {
      ListeningNearsEnd(s, a);
    } else if s.sync.Ports? {
      PortsNearEnd(s, a);
    } else if s.sync.Adding? || s.sync.Storing? {
      AddingNearsEnd(s, a);
    } else {
      DroppingNearsEnd(s, a);
    }
  }

  /** A backend about to be drained was active when the sync looked, and only a handler's trip
      can have changed that. */
  ghost predicate NotDrainedYet(s: State) {
    s.sync.DropSwapping? && SectionLive(s) && s.sync.k in Entries(s) ==>
      s.backends[Entries(s)[s.sync.k]].health != Draining
  }

  lemma EngineNotDrained(s: State, a: SyncStep)
    requires EngineEnabled(s, a) && NotDrainedYet(s)
    ensures NotDrainedYet(EngineApply(s, a))
  {}

  lemma NotDrainedStep(s: State, a: Action)
    requires Inv(s) && Enabled(s, a) && NotDrainedYet(s)
    ensures NotDrainedYet(Apply(s, a))
  {
    match a
    case Accept(_, _) =>
    case Conn(h, e) =>
      AllLive(s);
      ConnApplyFrame(s, h, e);
      if s.sync.DropSwapping? {
        assert Locked(s, s.sync.sec.li);
      }
    case Engine(step) => EngineNotDrained(s, step);
  }

  lemma {:induction false} NotDrainedInRun(r: Run, n: nat)
    requires r.FromInit() && n < |r.states|
    ensures NotDrainedYet(r.states[n])
  {
    if n > 0 {
      NotDrainedInRun(r, n - 1);
      RunInv(r, n - 1);
      NotDrainedStep(r.states[n - 1], r.actions[n - 1]);
    }
  }

  /** In every run a sync loses a compare-and-swap only against a trip; the key is then looked
      at once more and not swapped again. */
  lemma LostSwapIsUnhealthy(r: Run, n: nat)
    requires r.FromInit() && n < |r.states| && LostSwap(r.states[n], DropSwap)
    ensures var s := r.states[n];
            && s.backends[Entries(s)[s.sync.k]].health == Unhealthy
            && var s' := EngineApply(s, DropSwap);
               && EngineEnabled(s', DropLoad(s.sync.k))
               && EngineApply(s', DropLoad(s.sync.k)).sync == DropChecking(s.sync.sec, s.sync.keys, s.sync.k)
  {
    NotDrainedInRun(r, n);
    RunInv(r, n);
    var s := r.states[n];
    assert s.sync.keys + {s.sync.k} - {s.sync.k} == s.sync.keys;
  }
}
