/** The last connection of a draining backend removes it, but looks at its state before it
    takes the lock: a sync may list the backend again in between. */
module ProxyEviction {
  import Registry
  import opened Routing
  import opened Proxy
  import opened ProxyInvariant
  import opened ProxyDrain
  import opened ProxyHealth
  import opened ProxyWindow

  lemma ConnEvicting(s: State, h: Id, e: Event)
    requires ConnEnabled(s, h, e) && ConnApply(s, h, e).handlers[h].Evicting?
    ensures var hd, hd' := s.handlers[h], ConnApply(s, h, e).handlers[h];
            e == CheckDraining && hd.b == hd'.b && s.backends[hd.b].health == Draining
  {}

  /** A handler waits to remove its backend only after it saw that backend draining. */
  lemma EvictingStep(s: State, a: Action, h: Id)
    requires Enabled(s, a) && h in Apply(s, a).handlers && Apply(s, a).handlers[h].Evicting?
    ensures h in s.handlers
    ensures var hd, hd' := s.handlers[h], Apply(s, a).handlers[h];
            || hd == hd'
            || (a == Conn(h, CheckDraining) && hd.Released? && hd.b == hd'.b
                && hd.b in s.backends && s.backends[hd.b].health == Draining)
  {
    match a
    case Accept(_, _) =>
    case Engine(step) => EngineHealthOnly(s, step);
    case Conn(g, e) =>
      ConnMovesOne(s, g, e);
      if g == h {
        ConnEvicting(s, h, e);
      }
  }

  lemma ConnReleases(s: State, h: Id, e: Event)
    requires ConnEnabled(s, h, e) && ConnApply(s, h, e).handlers[h].Released?
    ensures var s', hd := ConnApply(s, h, e), s.handlers[h];
            && e == Release && hd.Leaving? && s'.handlers[h].b == hd.b && hd.b in s'.backends
            && s'.handlers[h].remaining == s'.backends[hd.b].conns
  {}

  lemma ReleasedStep(s: State, a: Action, h: Id)
    requires Enabled(s, a) && h in Apply(s, a).handlers && Apply(s, a).handlers[h].Released?
    ensures h in s.handlers
    ensures var hd, hd' := s.handlers[h], Apply(s, a).handlers[h];
            || hd == hd'
            || (a == Conn(h, Release) && hd.Leaving? && hd.b == hd'.b && hd.b in Apply(s, a).backends
                && hd'.remaining == Apply(s, a).backends[hd.b].conns)
  {
    match a
    case Accept(_, _) =>
    case Engine(step) => EngineHealthOnly(s, step);
    case Conn(g, e) =>
      ConnMovesOne(s, g, e);
      if g == h {
        ConnReleases(s, h, e);
      }
  }

  /** Handler h gave its connection back in step i, which left so many. */
  ghost predicate GaveBack(r: Run, i: nat, h: Id, b: Id, left: int) {
    && i < |r.actions| && i + 1 < |r.states| && r.actions[i] == Conn(h, Release)
    && b in r.states[i + 1].backends && r.states[i + 1].backends[b].conns == left
  }

  lemma {:induction false} ReleasedSince(r: Run, n: nat, h: Id) returns (i: nat)
    requires r.FromInit() && n < |r.states| && h in r.states[n].handlers && r.states[n].handlers[h].Released?
    ensures i < n && GaveBack(r, i, h, r.states[n].handlers[h].b, r.states[n].handlers[h].remaining)
  {
    ReleasedStep(r.states[n - 1], r.actions[n - 1], h);
    if r.states[n - 1].handlers[h].Released? {
      i := ReleasedSince(r, n - 1, h);
    } else {
      i := n - 1;
    }
  }

  lemma AfterCheck(s: State, h: Id)
    requires ConnEnabled(s, h, CheckDraining)
    ensures var hd, hd' := s.handlers[h], ConnApply(s, h, CheckDraining).handlers[h];
            hd' == if s.backends[hd.b].health == Draining && hd.remaining == 0 then Evicting(hd.li, hd.b) else Done
  {}

  /** In every run, a handler that has given its connection back goes for the lock to remove
      its backend exactly if giving it back took the counter to zero and it now sees the
      backend draining; otherwise it is done. */
  lemma LastConnectionRemoves(r: Run, m: nat, h: Id) returns (i: nat)
    requires r.FromInit() && m < |r.actions| && r.actions[m] == Conn(h, CheckDraining)
    ensures var hd, hd' := r.states[m].handlers[h], r.states[m + 1].handlers[h];
            && i < m && r.actions[i] == Conn(h, Release) && hd.b in r.states[i + 1].backends
            && (if r.states[i + 1].backends[hd.b].conns == 0 && r.states[m].backends[hd.b].health == Draining
                then hd' == Evicting(hd.li, hd.b) else hd' == Done)
  {
    i := ReleasedSince(r, m, h);
    AfterCheck(r.states[m], h);
  }

  lemma ActivatedByStep(s: State, a: Action, b: Id)
    requires Enabled(s, a) && b in s.backends && s.backends[b].health != Active
    requires b in Apply(s, a).backends && Apply(s, a).backends[b].health == Active
    ensures a == Engine(StoreActive) && StoringTo(s, b)
  {
    if a.Engine? {
      ActivatedByStore(s, a.step, b);
    }
  }

  lemma BackendStays(s: State, a: Action, b: Id)
    requires Enabled(s, a) && b in s.backends
    ensures b in Apply(s, a).backends
  {
    match a
    case Accept(_, _) =>
    case Engine(step) => EngineHealthOnly(s, step);
    case Conn(g, e) => ConnMovesOne(s, g, e);
  }

  /** The step takes an active b out of service: a handler trips it or a sync drains it. */
  predicate Cools(s: State, a: Action, b: Id) {
    || Trips(s, a, b)
    || (a == Engine(DropSwap) && EngineEnabled(s, DropSwap) && Entries(s)[s.sync.k] == b)
  }

  lemma EngineCools(s: State, a: SyncStep, b: Id)
    requires EngineEnabled(s, a) && b in s.backends && s.backends[b].health == Active
    ensures b in EngineApply(s, a).backends
    ensures EngineApply(s, a).backends[b].health != Active <==> Cools(s, Engine(a), b)
  {}

  lemma ConnCools(s: State, h: Id, e: Event, b: Id)
    requires ConnEnabled(s, h, e) && b in s.backends && s.backends[b].health == Active
    ensures b in ConnApply(s, h, e).backends
    ensures ConnApply(s, h, e).backends[b].health != Active <==> Cools(s, Conn(h, e), b)
  {}

  /** An active backend stays active exactly through the steps that do not cool it. */
  lemma StaysActive(s: State, a: Action, b: Id)
    requires Enabled(s, a) && b in s.backends && s.backends[b].health == Active
    ensures b in Apply(s, a).backends && (Apply(s, a).backends[b].health != Active <==> Cools(s, a, b))
  {
    match a
    case Accept(_, _) =>
    case Engine(step) => EngineCools(s, step, b);
    case Conn(h, e) => ConnCools(s, h, e, b);
  }

  /** A sync stored Active to b in step m, and nothing has taken b out of service up to n. */
  ghost predicate ActiveSince(r: Run, m: nat, n: nat, b: Id) {
    && |r.states| == |r.actions| + 1 && m < n < |r.states|
    && r.actions[m] == Engine(StoreActive) && StoringTo(r.states[m], b)
    && forall x {:trigger r.actions[x]} | m < x < n :: !Cools(r.states[x], r.actions[x], b)
  }

  lemma StoreActivates(s: State, b: Id)
    requires EngineEnabled(s, StoreActive) && StoringTo(s, b)
    ensures b in EngineApply(s, StoreActive).backends && EngineApply(s, StoreActive).backends[b].health == Active
  {}

  lemma ActiveNext(r: Run, n: nat, b: Id)
    requires r.Steps() && n < |r.actions| && b in r.states[n].backends
    requires r.states[n].backends[b].health == Active && !Cools(r.states[n], r.actions[n], b)
    ensures b in r.states[n + 1].backends && r.states[n + 1].backends[b].health == Active
  {
    StaysActive(r.states[n], r.actions[n], b);
  }

  lemma {:induction false} ActiveSinceIsActive(r: Run, m: nat, n: nat, b: Id)
    requires r.Steps() && ActiveSince(r, m, n, b)
    ensures b in r.states[n].backends && r.states[n].backends[b].health == Active
  {
    if n == m + 1 {
      StoreActivates(r.states[m], b);
    } else {
      ActiveSinceIsActive(r, m, n - 1, b);
      ActiveNext(r, n - 1, b);
    }
  }

  /** Handler h has waited to remove b since it saw b draining in step i; if b is active
      again, that is because of step m. */
  ghost predicate Waiting(r: Run, n: nat, h: Id, b: Id, i: nat, m: nat) {
    && i < n < |r.states| && n <= |r.actions|
    && r.actions[i] == Conn(h, CheckDraining)
    && b in r.states[n].backends
    && (r.states[n].backends[b].health == Active ==> i < m && ActiveSince(r, m, n, b))
  }

  /** If b is active after step n, it was before and the step did not cool it, or the step
      is a sync's store to it. */
  ghost predicate ActiveAfter(r: Run, n: nat, b: Id)
    requires n < |r.actions| && n + 1 < |r.states|
  {
    && b in r.states[n].backends && b in r.states[n + 1].backends
    && (r.states[n + 1].backends[b].health == Active ==>
          if r.states[n].backends[b].health == Active then !Cools(r.states[n], r.actions[n], b)
          else r.actions[n] == Engine(StoreActive) && StoringTo(r.states[n], b))
  }

  lemma ActiveStep(r: Run, n: nat, b: Id)
    requires r.Steps() && n < |r.actions| && b in r.states[n].backends
    ensures ActiveAfter(r, n, b)
  {
    BackendStays(r.states[n], r.actions[n], b);
    if r.states[n].backends[b].health == Active {
      StaysActive(r.states[n], r.actions[n], b);
    } else if r.states[n + 1].backends[b].health == Active {
      ActivatedByStep(r.states[n], r.actions[n], b);
    }
  }

  lemma WaitingOn(r: Run, n: nat, h: Id, b: Id, i: nat, m: nat) returns (m': nat)
    requires |r.states| == |r.actions| + 1 && n < |r.actions|
    requires Waiting(r, n, h, b, i, m) && ActiveAfter(r, n, b)
    ensures Waiting(r, n + 1, h, b, i, m')
  {
    m' := if r.states[n].backends[b].health == Active then m else n;
  }

  lemma {:induction false} WaitingSince(r: Run, n: nat, h: Id) returns (i: nat, m: nat)
    requires r.FromInit() && n < |r.states| && h in r.states[n].handlers && r.states[n].handlers[h].Evicting?
    ensures Waiting(r, n, h, r.states[n].handlers[h].b, i, m)
  {
    EvictingStep(r.states[n - 1], r.actions[n - 1], h);
    if r.states[n - 1].handlers[h].Evicting? {
      i, m := WaitingSince(r, n - 1, h);
      ActiveStep(r, n - 1, r.states[n].handlers[h].b);
      m := WaitingOn(r, n - 1, h, r.states[n].handlers[h].b, i, m);
    } else {
      i, m := n - 1, n - 1;
      StaysDraining(r.states[i], h, r.states[n].handlers[h].b);
    }
  }

  lemma StaysDraining(s: State, h: Id, b: Id)
    requires ConnEnabled(s, h, CheckDraining) && b in s.backends && s.backends[b].health == Draining
    ensures b in ConnApply(s, h, CheckDraining).backends
    ensures ConnApply(s, h, CheckDraining).backends[b].health == Draining
  {}

  /** The handler saw b draining in step i, and later a sync stored Active to b in step m,
      for good up to j. */
  ghost predicate Reactivated(r: Run, h: Id, b: Id, i: nat, m: nat, j: nat) {
    i < m < j <= |r.actions| && r.actions[i] == Conn(h, CheckDraining) && ActiveSince(r, m, j, b)
  }

  lemma ActiveWasReactivated(r: Run, j: nat, h: Id) returns (i: nat, m: nat)
    requires r.FromInit() && j < |r.states| && h in r.states[j].handlers && r.states[j].handlers[h].Evicting?
    requires r.states[j].handlers[h].b in r.states[j].backends
    requires r.states[j].backends[r.states[j].handlers[h].b].health == Active
    ensures Reactivated(r, h, r.states[j].handlers[h].b, i, m, j)
  {
    i, m := WaitingSince(r, j, h);
  }

  /** In every run, a backend is active when its last handler gets to remove it exactly if
      a sync stored Active to it after the handler had seen it draining, and neither a trip
      nor another drain came in between. */
  lemma ActiveEvictionHitTheWindow(r: Run, j: nat, h: Id)
    requires r.FromInit() && j < |r.actions| && r.actions[j] == Conn(h, Evict)
    ensures var b := r.states[j].handlers[h].b;
            r.states[j].backends[b].health == Active <==> exists i, m :: Reactivated(r, h, b, i, m, j)
  {
    var b := r.states[j].handlers[h].b;
    if r.states[j].backends[b].health == Active {
      var i, m := ActiveWasReactivated(r, j, h);
    }
    if i, m :| Reactivated(r, h, b, i, m, j) {
      ActiveSinceIsActive(r, m, j, b);
    }
  }

  /** The removal itself: the entry under the backend's key goes exactly if it still is that
      backend and nothing is connected to it; no other entry and no other instance changes. */
  lemma EvictionRemoves(s: State, h: Id)
    requires ConnEnabled(s, h, Evict)
    ensures var b, l := s.handlers[h].b, s.handlers[h].li;
            var k, was, now := KeyOf(s.backends[b].target), s.instances[l].backends, ConnApply(s, h, Evict).instances;
            && now.Keys == s.instances.Keys
            && (k in was && k !in now[l].backends <==> k in was && was[k] == b && s.backends[b].conns == 0)
            && now[l].backends == (if k in now[l].backends then was else was - {k})
            && forall l' | l' in s.instances && l' != l :: now[l'] == s.instances[l']
  {
    var b, l := s.handlers[h].b, s.handlers[h].li;
    var k, was := KeyOf(s.backends[b].target), s.instances[l].backends;
    if k !in was {
      assert was - {k} == was;
    }
  }

  // ---- and it happens ----

  /** The only connection ends while the backend is draining. */
  lemma LastOneLeaves(t: Registry.BackendKey)
    requires Reachable(At(t, Draining, 1, 0, map[0 := Counted(0, 0)], Idle))
    ensures Reachable(At(t, Draining, 0, 0, map[0 := Evicting(0, 0)], Idle))
  {
    var s1 := At(t, Draining, 1, 0, map[0 := Leaving(0, 0)], Idle);
    Go(At(t, Draining, 1, 0, map[0 := Counted(0, 0)], Idle), Conn(0, DialOk), s1);
    var s2 := At(t, Draining, 0, 0, map[0 := Released(0, 0, 0)], Idle);
    Go(s1, Conn(0, Release), s2);
    Go(s2, Conn(0, CheckDraining), At(t, Draining, 0, 0, map[0 := Evicting(0, 0)], Idle));
  }

  lemma StoreAndFinish(t: Registry.BackendKey, handlers: map<Id, Handler>)
    requires Reachable(At(t, Draining, 0, 0, handlers, Storing(Section(Listed(t), {}, 80, 0), {}, KeyOf(t))))
    ensures Reachable(At(t, Active, 0, 0, handlers, Idle))
  {
    var sec := Section(Listed(t), {}, 80, 0);
    Go(At(t, Draining, 0, 0, handlers, Storing(sec, {}, KeyOf(t))), Engine(StoreActive),
       At(t, Active, 0, 0, handlers, Adding(sec, {})));
    FinishSync(t, Active, 0, handlers, Listed(t));
  }

  lemma ReachEviction(t: Registry.BackendKey)
    ensures Reachable(At(t, Active, 0, 0, map[0 := Evicting(0, 0)], Idle))
  {
    ConnectMany(t, 1);
    var dialing: map<Id, Handler> := map[0 := Counted(0, 0)];
    assert Dialing(1) == dialing;
    Drain(t, 1, dialing);
    LastOneLeaves(t);
    Relist(t, 0, map[0 := Evicting(0, 0)]);
    StoreAndFinish(t, map[0 := Evicting(0, 0)]);
  }

  /** A backend that the last sync listed and made active is removed by a handler. */
  lemma ListedBackendCanBeEvicted(t: Registry.BackendKey) returns (s: State)
    ensures Reachable(s) && Enabled(s, Conn(0, Evict)) && s.sync == Idle
    ensures 0 in s.backends && s.backends[0].target == t && s.backends[0].health == Active
    ensures s.instances == map[0 := Instance(80, map[KeyOf(t) := 0])]
    ensures Apply(s, Conn(0, Evict)).instances == map[0 := Instance(80, map[])]
  {
    ReachEviction(t);
    s := At(t, Active, 0, 0, map[0 := Evicting(0, 0)], Idle);
    assert s.instances[0].backends - {KeyOf(t)} == map[];
  }
}
