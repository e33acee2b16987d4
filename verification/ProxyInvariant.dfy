/** What every step of the proxy engine keeps. */
module ProxyInvariant {
  import opened Routing
  import opened Proxy

  // ---- references ----

  ghost predicate ListenersOk(s: State) {
    forall p | p in s.listeners :: s.listeners[p] in s.instances && s.instances[s.listeners[p]].port == p
  }

  /** An entry points to a live backend that was created by this instance under this key. */
  ghost predicate EntryOk(s: State, l: Id, k: string)
    requires l in s.instances && k in s.instances[l].backends
  {
    var b := s.instances[l].backends[k];
    b in s.backends && s.backends[b].home == l && KeyOf(s.backends[b].target) == k
  }

  ghost predicate EntriesOk(s: State) {
    forall l, k | l in s.instances && k in s.instances[l].backends :: EntryOk(s, l, k)
  }

  ghost predicate HandlerOk(s: State, hd: Handler) {
    Pointers(s, hd) && (!hd.Done? && !hd.Accepted? ==> s.backends[hd.b].home == hd.li)
  }

  ghost predicate HandlersOk(s: State) {
    forall h | h in s.handlers :: HandlerOk(s, s.handlers[h])
  }

  /** A listener instance the engine no longer runs has no backends left. */
  ghost predicate OrphansEmpty(s: State) {
    !s.sync.Stopped? ==>
      forall l | l in s.instances && s.instances[l].backends != map[] ::
        s.instances[l].port in s.listeners && s.listeners[s.instances[l].port] == l
  }

  // ---- progress of a section ----

  ghost predicate SyncRefs(s: State) {
    match s.sync
    case Idle => true
    case Stopped => true
    case Listening(d, todo) => WellKeyed(d)
    case Ports(d, todo) => WellKeyed(d) && todo <= s.listeners.Keys
    case _ =>
      var sec := s.sync.sec;
      && WellKeyed(sec.desired) && sec.todo <= s.listeners.Keys && sec.port !in sec.todo
      && sec.port in s.listeners && s.listeners[sec.port] == sec.li
  }

  ghost predicate HealthIs(s: State, entries: map<string, Id>, k: string, not: Health) {
    k in entries && entries[k] in s.backends && s.backends[entries[k]].health != not
  }

  /** Every unlisted key outside `except` has stopped taking connections. */
  ghost predicate OthersCold(s: State, sec: Section, except: set<string>)
    requires sec.li in s.instances
  {
    var entries := s.instances[sec.li].backends;
    forall k | k in entries && k !in TargetsOf(sec) && k !in except :: HealthIs(s, entries, k, Active)
  }

  /** Every listed key outside `except` is present and not draining. */
  ghost predicate ListedReady(s: State, sec: Section, except: set<string>)
    requires sec.li in s.instances
  {
    var entries := s.instances[sec.li].backends;
    forall k | k in TargetsOf(sec) && k !in except :: HealthIs(s, entries, k, Draining)
  }

  ghost predicate Unlisted(s: State, sec: Section, keys: set<string>)
    requires sec.li in s.instances
  {
    forall k | k in keys :: k in s.instances[sec.li].backends && k !in TargetsOf(sec)
  }

  ghost predicate Progress(s: State) {
    InSection(s.sync) ==>
      && s.sync.sec.li in s.instances
      && var y := s.sync;
         match y
         case Dropping(sec, keys) => Unlisted(s, sec, keys) && OthersCold(s, sec, keys)
         case DropSwapping(sec, keys, k) => k !in keys && Unlisted(s, sec, keys + {k}) && OthersCold(s, sec, keys + {k})
         case DropChecking(sec, keys, k) => k !in keys && Unlisted(s, sec, keys + {k}) && OthersCold(s, sec, keys)
         case Adding(sec, keys) =>
           keys <= TargetsOf(sec).Keys && OthersCold(s, sec, {}) && ListedReady(s, sec, keys)
         case Storing(sec, keys, k) =>
           && k !in keys && k in TargetsOf(sec) && k in s.instances[sec.li].backends
           && keys <= TargetsOf(sec).Keys && OthersCold(s, sec, {}) && ListedReady(s, sec, keys + {k})
         case _ => true
  }

  ghost predicate Inv(s: State) {
    && ListenersOk(s) && EntriesOk(s) && HandlersOk(s) && OrphansEmpty(s)
    && SyncRefs(s) && Progress(s)
  }

  // ---- what a connection handler can touch ----

  ghost predicate ConnFrame(s: State, s': State) {
    && s'.listeners == s.listeners && s'.sync == s.sync
    && s'.instances.Keys == s.instances.Keys && s'.backends.Keys == s.backends.Keys
    && (forall b | b in s.backends ::
          && s'.backends[b].home == s.backends[b].home && s'.backends[b].target == s.backends[b].target
          && (s'.backends[b].health == s.backends[b].health || s'.backends[b].health == Unhealthy))
    && (forall l | l in s.instances ::
          && s'.instances[l].port == s.instances[l].port
          && (Locked(s, l) ==> s'.instances[l] == s.instances[l])
          && forall k | k in s'.instances[l].backends ::
               k in s.instances[l].backends && s'.instances[l].backends[k] == s.instances[l].backends[k])
  }

  lemma ConnApplyFrame(s: State, h: Id, e: Event)
    requires ConnEnabled(s, h, e)
    ensures ConnFrame(s, ConnApply(s, h, e))
  {}

  lemma ConnHandlers(s: State, h: Id, e: Event)
    requires EntriesOk(s) && HandlersOk(s) && ConnEnabled(s, h, e)
    ensures HandlersOk(ConnApply(s, h, e))
  {
    var s' := ConnApply(s, h, e);
    ConnApplyFrame(s, h, e);
    assert HandlerOk(s', s'.handlers[h]) by {
      assert HandlerOk(s, s.handlers[h]);
      if e.Pick? {
        assert EntryOk(s, s.handlers[h].li, e.k);
      }
    }
    forall g | g in s'.handlers && g != h
      ensures HandlerOk(s', s'.handlers[g])
    {
      assert HandlerOk(s, s.handlers[g]) && s'.handlers[g] == s.handlers[g];
    }
  }

  lemma FrameKeepsEntries(s: State, s': State)
    requires ConnFrame(s, s') && ListenersOk(s) && EntriesOk(s) && OrphansEmpty(s)
    ensures ListenersOk(s') && EntriesOk(s') && OrphansEmpty(s')
  {
    forall l, k | l in s'.instances && k in s'.instances[l].backends
      ensures EntryOk(s', l, k)
    {
      assert EntryOk(s, l, k);
    }
    forall l | l in s'.instances && s'.instances[l].backends != map[]
      ensures s.instances[l].backends != map[]
    {
      var k :| k in s'.instances[l].backends;
      assert k in s.instances[l].backends;
    }
  }

  lemma FrameKeepsProgress(s: State, s': State)
    requires ConnFrame(s, s') && SyncRefs(s) && Progress(s)
    ensures SyncRefs(s') && Progress(s')
  {
    if InSection(s.sync) {
      var sec := s.sync.sec;
      assert Locked(s, sec.li);
      assert s'.instances[sec.li] == s.instances[sec.li];
      forall except: set<string> | OthersCold(s, sec, except)
        ensures OthersCold(s', sec, except)
      {}
      forall except: set<string> | ListedReady(s, sec, except)
        ensures ListedReady(s', sec, except)
      {}
    }
  }

  lemma ConnInv(s: State, h: Id, e: Event)
    requires Inv(s) && ConnEnabled(s, h, e)
    ensures Inv(ConnApply(s, h, e))
  {
    ConnApplyFrame(s, h, e);
    ConnHandlers(s, h, e);
    FrameKeepsEntries(s, ConnApply(s, h, e));
    FrameKeepsProgress(s, ConnApply(s, h, e));
  }

  // ---- what the sync goroutine does ----

  /** A sync step touches no handler, and of existing backends only the health. */
  ghost predicate HealthOnly(s: State, s': State) {
    && s'.handlers == s.handlers
    && forall b | b in s.backends ::
         b in s'.backends && s'.backends[b] == s.backends[b].(health := s'.backends[b].health)
  }

  /** A sync step changes the entries of the instance it has locked only. */
  ghost predicate LockedOnly(s: State, s': State) {
    && (forall l | l in s.instances ::
          l in s'.instances && s'.instances[l].port == s.instances[l].port
          && (!Locked(s, l) ==> s'.instances[l] == s.instances[l]))
    && (forall l | l in s'.instances && l !in s.instances :: s'.instances[l].backends == map[])
  }

  lemma EngineHealthOnly(s: State, a: SyncStep)
    requires EngineEnabled(s, a)
    ensures HealthOnly(s, EngineApply(s, a))
  {}

  lemma EngineLockedOnly(s: State, a: SyncStep)
    requires EngineEnabled(s, a)
    ensures LockedOnly(s, EngineApply(s, a))
  {}

  lemma EngineApplyFrame(s: State, a: SyncStep)
    requires EngineEnabled(s, a)
    ensures HealthOnly(s, EngineApply(s, a)) && LockedOnly(s, EngineApply(s, a))
  {
    EngineHealthOnly(s, a);
    EngineLockedOnly(s, a);
  }

  /** Only AddNew files an entry, and only under its own key in the locked instance. */
  lemma EntryIsOldOrNew(s: State, a: SyncStep, l: Id, k: string)
    requires EngineEnabled(s, a)
    requires l in EngineApply(s, a).instances && k in EngineApply(s, a).instances[l].backends
    ensures l in s.instances
    ensures || (k in s.instances[l].backends
                && EngineApply(s, a).instances[l].backends[k] == s.instances[l].backends[k])
            || (a.AddNew? && a.k == k && Locked(s, l) && EngineApply(s, a).instances[l].backends[k] == a.b
                && EngineApply(s, a).backends.Keys == s.backends.Keys + {a.b}
                && EngineApply(s, a).backends[a.b] == Backend(TargetsOf(s.sync.sec)[k], l, Active, 0, 0))
  {}

  /** Only StoreActive turns a backend active again. */
  lemma ActivatedByStore(s: State, a: SyncStep, b: Id)
    requires EngineEnabled(s, a) && b in s.backends && s.backends[b].health != Active
    ensures b in EngineApply(s, a).backends
    ensures EngineApply(s, a).backends[b].health == Active ==> a.StoreActive? && b == Entries(s)[s.sync.k]
  {}

  lemma EngineRefs(s: State, a: SyncStep)
    requires ListenersOk(s) && OrphansEmpty(s) && SyncRefs(s) && EngineEnabled(s, a)
    ensures ListenersOk(EngineApply(s, a)) && OrphansEmpty(EngineApply(s, a))
  {
    var s' := EngineApply(s, a);
    EngineApplyFrame(s, a);
    forall l | l in s'.instances && s'.instances[l].backends != map[] && !s'.sync.Stopped?
      ensures s'.instances[l].port in s'.listeners && s'.listeners[s'.instances[l].port] == l
    {
      if Locked(s, l) {
        assert s.instances[l].port == s.sync.sec.port;
      }
    }
  }

  lemma EngineEntries(s: State, a: SyncStep)
    requires EntriesOk(s) && SyncRefs(s) && EngineEnabled(s, a)
    ensures EntriesOk(EngineApply(s, a))
  {
    var s' := EngineApply(s, a);
    EngineApplyFrame(s, a);
    forall l, k | l in s'.instances && k in s'.instances[l].backends
      ensures EntryOk(s', l, k)
    {
      EntryIsOldOrNew(s, a, l, k);
      if k in s.instances[l].backends && s'.instances[l].backends[k] == s.instances[l].backends[k] {
        assert EntryOk(s, l, k);
      } else {
        assert OwnKeys(s.sync.sec.desired[s.sync.sec.port]);
      }
    }
  }

  lemma EngineHandlers(s: State, a: SyncStep)
    requires HandlersOk(s) && EngineEnabled(s, a)
    ensures HandlersOk(EngineApply(s, a))
  {
    var s' := EngineApply(s, a);
    EngineApplyFrame(s, a);
    forall h | h in s'.handlers
      ensures HandlerOk(s', s'.handlers[h])
    {
      assert HandlerOk(s, s.handlers[h]);
    }
  }

  lemma EngineSyncRefs(s: State, a: SyncStep)
    requires SyncRefs(s) && EngineEnabled(s, a)
    ensures SyncRefs(EngineApply(s, a))
  {
    if a.Begin? {
      DesiredWellKeyed(a.routes);
    }
  }

  /** Keys of one instance file distinct backends. */
  lemma EntriesInjective(s: State, l: Id, j: string, k: string)
    requires EntriesOk(s) && l in s.instances
    requires j in s.instances[l].backends && k in s.instances[l].backends
    requires s.instances[l].backends[j] == s.instances[l].backends[k]
    ensures j == k
  {
    assert EntryOk(s, l, j) && EntryOk(s, l, k);
  }

  function WithHealth(s: State, l: Id, k: string, health: Health): State
    requires l in s.instances && k in s.instances[l].backends && s.instances[l].backends[k] in s.backends
  {
    var b := s.instances[l].backends[k];
    SetBackend(s, b, s.backends[b].(health := health))
  }

  lemma OtherKeysUntouched(s: State, l: Id, k: string, health: Health, j: string)
    requires EntriesOk(s) && l in s.instances && k in s.instances[l].backends
    requires s.instances[l].backends[k] in s.backends
    requires j in s.instances[l].backends && j != k
    ensures s.instances[l].backends[j] in s.backends
    ensures WithHealth(s, l, k, health).backends[s.instances[l].backends[j]] == s.backends[s.instances[l].backends[j]]
  {
    assert EntryOk(s, l, j);
    if s.instances[l].backends[j] == s.instances[l].backends[k] {
      EntriesInjective(s, l, j, k);
    }
  }

  lemma TakePortProgress(s: State, port: int)
    requires EntriesOk(s) && EngineEnabled(s, TakePort(port))
    ensures Progress(EngineApply(s, TakePort(port)))
  {}

  lemma DropLoadProgress(s: State, k: string)
    requires Progress(s) && EngineEnabled(s, DropLoad(k))
    ensures Progress(EngineApply(s, DropLoad(k)))
  {}

  lemma DropSwapProgress(s: State)
    requires EntriesOk(s) && Progress(s) && EngineEnabled(s, DropSwap)
    ensures Progress(EngineApply(s, DropSwap))
  {
    var DropSwapping(sec, keys, k) := s.sync;
    forall j | j in Entries(s) && j != k {
      OtherKeysUntouched(s, sec.li, k, Draining, j);
    }
  }

  lemma DropCheckProgress(s: State)
    requires Progress(s) && EngineEnabled(s, DropCheck)
    ensures Progress(EngineApply(s, DropCheck))
  {}

  lemma AddNewProgress(s: State, k: string, b: Id)
    requires Progress(s) && EngineEnabled(s, AddNew(k, b))
    ensures Progress(EngineApply(s, AddNew(k, b)))
  {}

  lemma AddFoundProgress(s: State, k: string)
    requires Progress(s) && EngineEnabled(s, AddFound(k))
    ensures Progress(EngineApply(s, AddFound(k)))
  {}

  lemma StoreActiveProgress(s: State)
    requires EntriesOk(s) && Progress(s) && EngineEnabled(s, StoreActive)
    ensures Progress(EngineApply(s, StoreActive))
  {
    var Storing(sec, keys, k) := s.sync;
    forall j | j in Entries(s) && j != k {
      OtherKeysUntouched(s, sec.li, k, Active, j);
    }
  }

  lemma EngineProgress(s: State, a: SyncStep)
    requires EntriesOk(s) && Progress(s) && EngineEnabled(s, a)
    ensures Progress(EngineApply(s, a))
  {
    match a
    case TakePort(port) => TakePortProgress(s, port);
    case DropLoad(k) => DropLoadProgress(s, k);
    case DropSwap => DropSwapProgress(s);
    case DropCheck => DropCheckProgress(s);
    case AddNew(k, b) => AddNewProgress(s, k, b);
    case AddFound(k) => AddFoundProgress(s, k);
    case StoreActive => StoreActiveProgress(s);
    case _ =>
  }

  lemma EngineInv(s: State, a: SyncStep)
    requires Inv(s) && EngineEnabled(s, a)
    ensures Inv(EngineApply(s, a))
  {
    EngineRefs(s, a);
    EngineEntries(s, a);
    EngineHandlers(s, a);
    EngineSyncRefs(s, a);
    EngineProgress(s, a);
  }

  lemma StepInv(s: State, a: Action)
    requires Inv(s) && Enabled(s, a)
    ensures Inv(Apply(s, a))
  {
    match a
    case Accept(h, li) =>
      forall g | g in s.handlers
        ensures HandlerOk(Apply(s, a), s.handlers[g])
      {
        assert HandlerOk(s, s.handlers[g]);
      }
    case Conn(h, e) => ConnInv(s, h, e);
    case Engine(step) => EngineInv(s, step);
  }
}
