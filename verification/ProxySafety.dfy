/** A key that a sync has dropped takes no new connection until a later sync lists it. */
module ProxySafety {
  import opened Routing
  import opened Proxy
  import opened ProxyInvariant

  lemma InitInv()
    ensures Inv(INIT)
  {}

  /** Every state of every run satisfies the invariant. */
  lemma {:induction false} RunInv(r: Run, n: nat)
    requires r.FromInit() && n < |r.states|
    ensures Inv(r.states[n])
  {
    if n == 0 {
      InitInv();
    } else {
      RunInv(r, n - 1);
      StepInv(r.states[n - 1], r.actions[n - 1]);
    }
  }

  /** No listener instance on the port, running or closed, has an active backend under k. */
  ghost predicate Dropped(s: State, port: int, k: string) {
    forall l | l in s.instances && s.instances[l].port == port && k in s.instances[l].backends ::
      var b := s.instances[l].backends[k];
      b in s.backends && s.backends[b].health != Active
  }

  predicate ListsKey(d: Desired, port: int, k: string) {
    k in Wanted(d, port)
  }

  /** The sync in progress, if any, wants the key on the port. */
  predicate SyncLists(y: Sync, port: int, k: string) {
    match y
    case Idle => false
    case Stopped => false
    case Listening(d, _) => ListsKey(d, port, k)
    case Ports(d, _) => ListsKey(d, port, k)
    case _ => ListsKey(y.sec.desired, port, k)
  }

  /** The action starts a sync whose snapshot lists the key on the port. */
  predicate Relists(a: Action, port: int, k: string) {
    a.Engine? && a.step.Begin? && ListsKey(DesiredTable(a.step.routes), port, k)
  }

  ghost predicate Quiet(s: State, port: int, k: string) {
    Dropped(s, port, k) && !SyncLists(s.sync, port, k)
  }

  lemma ConnKeepsQuiet(s: State, h: Id, e: Event, port: int, k: string)
    requires Inv(s) && ConnEnabled(s, h, e) && Quiet(s, port, k)
    ensures Quiet(ConnApply(s, h, e), port, k)
  {
    ConnApplyFrame(s, h, e);
  }

  lemma SyncListsSteps(s: State, a: SyncStep, port: int, k: string)
    requires EngineEnabled(s, a) && !SyncLists(s.sync, port, k) && !Relists(Engine(a), port, k)
    ensures !SyncLists(EngineApply(s, a).sync, port, k)
  {}

  lemma EngineKeepsQuiet(s: State, a: SyncStep, port: int, k: string)
    requires Inv(s) && EngineEnabled(s, a) && Quiet(s, port, k)
    requires !Relists(Engine(a), port, k)
    ensures Quiet(EngineApply(s, a), port, k)
  {
    var s' := EngineApply(s, a);
    EngineApplyFrame(s, a);
    forall l | l in s'.instances && s'.instances[l].port == port && k in s'.instances[l].backends
      ensures var b := s'.instances[l].backends[k]; b in s'.backends && s'.backends[b].health != Active
    {
      EntryIsOldOrNew(s, a, l, k);
      assert Locked(s, l) ==> s.instances[l].port == s.sync.sec.port;
      assert EntryOk(s, l, k);
      ActivatedByStore(s, a, s.instances[l].backends[k]);
      if a.StoreActive? {
        assert EntryOk(s, s.sync.sec.li, s.sync.k);
      }
    }
    SyncListsSteps(s, a, port, k);
  }

  lemma StepKeepsQuiet(s: State, a: Action, port: int, k: string)
    requires Inv(s) && Enabled(s, a) && Quiet(s, port, k)
    requires !Relists(a, port, k)
    ensures Quiet(Apply(s, a), port, k)
  {
    match a
    case Accept(h, li) =>
    case Conn(h, e) => ConnKeepsQuiet(s, h, e, port, k);
    case Engine(step) => EngineKeepsQuiet(s, step, port, k);
  }

  /** When a sync leaves a port's section, every key it does not want there is dropped. */
  lemma SectionEndDrops(s: State, k: string)
    requires Inv(s) && EngineEnabled(s, SectionEnd) && k !in TargetsOf(s.sync.sec)
    ensures Quiet(EngineApply(s, SectionEnd), s.sync.sec.port, k)
  {
    var sec := s.sync.sec;
    forall l | l in s.instances && s.instances[l].port == sec.port && k in s.instances[l].backends
      ensures var b := s.instances[l].backends[k]; b in s.backends && s.backends[b].health != Active
    {
      assert s.instances[l].backends != map[];
      assert l == sec.li;
    }
  }

  lemma {:induction false} QuietLasts(r: Run, i: nat, j: nat, port: int, k: string)
    requires r.FromInit() && i <= j < |r.states|
    requires Quiet(r.states[i], port, k)
    requires forall m | i <= m < j :: !Relists(r.actions[m], port, k)
    ensures Quiet(r.states[j], port, k)
  {
    if i < j {
      QuietLasts(r, i, j - 1, port, k);
      RunInv(r, j - 1);
      StepKeepsQuiet(r.states[j - 1], r.actions[j - 1], port, k);
    }
  }

  lemma QuietNotPicked(s: State, h: Id, k: string)
    requires Inv(s) && ConnEnabled(s, h, Pick(k))
    ensures var l := s.handlers[h].li;
            var b := s.instances[l].backends[k];
            !Dropped(s, s.instances[l].port, k) && KeyOf(s.backends[b].target) == k
  {
    var l := s.handlers[h].li;
    assert EntryOk(s, l, k);
  }

  /** In every run and under every interleaving: after a sync's section for a port leaves
      out a key, no handler of any listener on that port picks a backend with that key,
      until a sync begins whose snapshot lists the key on the port again. */
  lemma DroppedKeyIsNeverPicked(r: Run, i: nat, j: nat, k: string)
    requires r.FromInit() && i < j < |r.actions|
    requires r.actions[i] == Engine(SectionEnd)
    requires k !in TargetsOf(r.states[i].sync.sec)
    requires forall m | i < m < j :: !Relists(r.actions[m], r.states[i].sync.sec.port, k)
    requires r.actions[j].Conn? && r.actions[j].event.Pick?
    ensures var s, h := r.states[j], r.actions[j].h;
            var l := s.handlers[h].li;
            var b := s.instances[l].backends[r.actions[j].event.k];
            s.instances[l].port == r.states[i].sync.sec.port ==> KeyOf(s.backends[b].target) != k
  {
    var port := r.states[i].sync.sec.port;
    RunInv(r, i);
    SectionEndDrops(r.states[i], k);
    QuietLasts(r, i + 1, j, port, k);
    RunInv(r, j);
    QuietNotPicked(r.states[j], r.actions[j].h, r.actions[j].event.k);
  }
}
