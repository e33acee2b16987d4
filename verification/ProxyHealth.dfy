/** The passive circuit breaker: when a backend is marked unhealthy, and whether that lasts. */
module ProxyHealth {
  import opened Proxy
  import opened ProxyInvariant
  import opened ProxySafety

  /** Step m is a dial of backend b with the given outcome. */
  predicate Dials(r: Run, m: nat, outcome: Event, b: Id) {
    && m < |r.actions| && m < |r.states|
    && r.actions[m].Conn? && r.actions[m].event == outcome
    && r.actions[m].h in r.states[m].handlers
    && var hd := r.states[m].handlers[r.actions[m].h];
       hd.Counted? && hd.b == b
  }

  /** Failed dials of b among the first n steps, since its last successful dial. */
  function FailsSince(r: Run, n: nat, b: Id): nat {
    if n == 0 then 0
    else if Dials(r, n - 1, DialOk, b) then 0
    else if Dials(r, n - 1, DialFail, b) then FailsSince(r, n - 1, b) + 1
    else FailsSince(r, n - 1, b)
  }

  lemma DialNeedsBackend(r: Run, m: nat, outcome: Event, b: Id)
    requires r.FromInit() && Dials(r, m, outcome, b)
    ensures b in r.states[m].backends
  {
    RunInv(r, m);
    assert HandlerOk(r.states[m], r.states[m].handlers[r.actions[m].h]);
  }

  lemma FailsStep(s: State, a: Action, b: Id)
    requires Enabled(s, a) && b in s.backends
    ensures b in Apply(s, a).backends
    ensures Apply(s, a).backends[b].fails ==
            if a.Conn? && a.event.DialOk? && s.handlers[a.h].b == b then 0
            else if a.Conn? && a.event.DialFail? && s.handlers[a.h].b == b then s.backends[b].fails + 1
            else s.backends[b].fails
  {
    if a.Engine? {
      EngineHealthOnly(s, a.step);
    }
  }

  lemma EngineNewBackend(s: State, a: SyncStep, b: Id)
    requires EngineEnabled(s, a) && b !in s.backends && b in EngineApply(s, a).backends
    ensures EngineApply(s, a).backends[b].fails == 0 && EngineApply(s, a).backends[b].health == Active
  {}

  lemma NewBackendHasNoFails(s: State, a: Action, b: Id)
    requires Enabled(s, a) && b !in s.backends && b in Apply(s, a).backends
    ensures Apply(s, a).backends[b].fails == 0 && Apply(s, a).backends[b].health == Active
  {
    match a
    case Accept(_, _) =>
    case Conn(h, e) => ConnApplyFrame(s, h, e);
    case Engine(step) => EngineNewBackend(s, step, b);
  }

  /** consecFailure counts exactly the failures since the last successful dial. */
  lemma {:induction false} FailureCounterIsExact(r: Run, n: nat, b: Id)
    requires r.FromInit() && n < |r.states|
    ensures FailsSince(r, n, b) == if b in r.states[n].backends then r.states[n].backends[b].fails else 0
  {
    if n > 0 {
      var s, a := r.states[n - 1], r.actions[n - 1];
      FailureCounterIsExact(r, n - 1, b);
      if Dials(r, n - 1, DialOk, b) || Dials(r, n - 1, DialFail, b) {
        DialNeedsBackend(r, n - 1, a.event, b);
      }
      if b in s.backends {
        FailsStep(s, a, b);
      } else if b in r.states[n].backends {
        NewBackendHasNoFails(s, a, b);
      }
    }
  }

  // ---- transitions ----

  predicate Trips(s: State, a: Action, b: Id) {
    && a.Conn? && a.event.SwapHealth? && ConnEnabled(s, a.h, a.event)
    && s.handlers[a.h].b == b && s.backends[b].health == s.handlers[a.h].seen
  }

  predicate TurnsUnhealthy(s: State, s': State, b: Id) {
    && b in s'.backends && s'.backends[b].health == Unhealthy
    && (b in s.backends ==> s.backends[b].health != Unhealthy)
  }

  /** A pending compare-and-swap never expects Unhealthy. */
  ghost predicate SeenOk(s: State) {
    forall h | h in s.handlers && s.handlers[h].Swapping? :: s.handlers[h].seen != Unhealthy
  }

  lemma ConnSeen(s: State, h: Id, e: Event)
    requires ConnEnabled(s, h, e) && ConnApply(s, h, e).handlers[h].Swapping?
    ensures ConnApply(s, h, e).handlers[h].seen != Unhealthy
  {}

  lemma SeenStep(s: State, a: Action)
    requires Enabled(s, a) && SeenOk(s)
    ensures SeenOk(Apply(s, a))
  {
    match a
    case Accept(_, _) =>
    case Engine(step) => EngineHealthOnly(s, step);
    case Conn(h, e) =>
      OtherHandlersKept(s, h, e);
      if ConnApply(s, h, e).handlers[h].Swapping? {
        ConnSeen(s, h, e);
      }
  }

  lemma {:induction false} SeenIsHealthy(r: Run, n: nat)
    requires r.FromInit() && n < |r.states|
    ensures SeenOk(r.states[n])
  {
    if n > 0 {
      SeenIsHealthy(r, n - 1);
      SeenStep(r.states[n - 1], r.actions[n - 1]);
    }
  }

  /** markUnhealthy returns true exactly at the steps that turn the backend unhealthy. */
  lemma TripIsTransition(s: State, a: Action, b: Id)
    requires Inv(s) && SeenOk(s) && Enabled(s, a)
    ensures Trips(s, a, b) <==> TurnsUnhealthy(s, Apply(s, a), b)
  {
    if a.Engine? && b in s.backends {
      EngineHealthOnly(s, a.step);
      EngineNeverTrips(s, a.step, b);
    } else if b !in s.backends && b in Apply(s, a).backends {
      NewBackendHasNoFails(s, a, b);
    }
  }

  lemma EngineNeverTrips(s: State, a: SyncStep, b: Id)
    requires EngineEnabled(s, a) && b in s.backends
    ensures b in EngineApply(s, a).backends
    ensures EngineApply(s, a).backends[b].health == Unhealthy ==> s.backends[b].health == Unhealthy
  {}

  lemma TransitionTrips(r: Run, m: nat, b: Id)
    requires r.FromInit() && m < |r.actions|
    ensures Trips(r.states[m], r.actions[m], b) <==> TurnsUnhealthy(r.states[m], r.states[m + 1], b)
  {
    RunInv(r, m);
    SeenIsHealthy(r, m);
    TripIsTransition(r.states[m], r.actions[m], b);
  }

  function TripCount(r: Run, n: nat, b: Id): nat
    requires n <= |r.actions| && n <= |r.states|
  {
    if n == 0 then 0
    else TripCount(r, n - 1, b) + if Trips(r.states[n - 1], r.actions[n - 1], b) then 1 else 0
  }

  function TransitionCount(r: Run, n: nat, b: Id): nat
    requires n < |r.states|
  {
    if n == 0 then 0
    else TransitionCount(r, n - 1, b) + if TurnsUnhealthy(r.states[n - 1], r.states[n], b) then 1 else 0
  }

  /** The trip metric counts every transition to Unhealthy once. */
  lemma {:induction false} OneTripPerTransition(r: Run, n: nat, b: Id)
    requires r.FromInit() && n < |r.states|
    ensures TripCount(r, n, b) == TransitionCount(r, n, b)
  {
    if n > 0 {
      OneTripPerTransition(r, n - 1, b);
      TransitionTrips(r, n - 1, b);
    }
  }

  lemma OtherHandlersKept(s: State, g: Id, e: Event)
    requires ConnEnabled(s, g, e)
    ensures ConnApply(s, g, e).handlers.Keys == s.handlers.Keys
    ensures forall h | h in s.handlers && h != g :: ConnApply(s, g, e).handlers[h] == s.handlers[h]
  {}

  lemma ConnTripping(s: State, h: Id, e: Event)
    requires ConnEnabled(s, h, e)
    requires ConnApply(s, h, e).handlers[h].Tripping? || ConnApply(s, h, e).handlers[h].Swapping?
    ensures var hd, hd' := s.handlers[h], ConnApply(s, h, e).handlers[h];
            || ((hd.Tripping? || hd.Swapping?) && hd.b == hd'.b)
            || (e == DialFail && hd.Counted? && hd.b == hd'.b && s.backends[hd.b].fails + 1 >= 3)
  {}

  lemma TrippingStep(s: State, a: Action, h: Id)
    requires Enabled(s, a) && h in Apply(s, a).handlers
    requires Apply(s, a).handlers[h].Tripping? || Apply(s, a).handlers[h].Swapping?
    ensures h in s.handlers
    ensures var hd, hd' := s.handlers[h], Apply(s, a).handlers[h];
            || ((hd.Tripping? || hd.Swapping?) && hd.b == hd'.b)
            || (a == Conn(h, DialFail) && hd.Counted? && hd.b == hd'.b && s.backends[hd.b].fails + 1 >= 3)
  {
    match a
    case Accept(_, _) =>
    case Engine(step) => EngineHealthOnly(s, step);
    case Conn(g, e) =>
      OtherHandlersKept(s, g, e);
      if g == h {
        ConnTripping(s, h, e);
      }
  }

  /** A handler inside markUnhealthy got there by a failed dial that was at least the third. */
  lemma {:induction false} TrippingHasCause(r: Run, n: nat, h: Id) returns (i: nat)
    requires r.FromInit() && n < |r.states| && h in r.states[n].handlers
    requires r.states[n].handlers[h].Tripping? || r.states[n].handlers[h].Swapping?
    ensures i < n && r.actions[i] == Conn(h, DialFail)
    ensures Dials(r, i, DialFail, r.states[n].handlers[h].b)
    ensures FailsSince(r, i + 1, r.states[n].handlers[h].b) >= 3
  {
    var s, a := r.states[n - 1], r.actions[n - 1];
    TrippingStep(s, a, h);
    var hd := s.handlers[h];
    if hd.Tripping? || hd.Swapping? {
      i := TrippingHasCause(r, n - 1, h);
    } else {
      i := n - 1;
      FailureCounterIsExact(r, i, hd.b);
    }
  }

  /** Under any interleaving, whenever a backend turns unhealthy, the handler that did it
      had failed to dial that backend, and that failure was at least the third since the
      backend's last successful dial. */
  lemma UnhealthyAfterThreeFailures(r: Run, j: nat, b: Id) returns (i: nat)
    requires r.FromInit() && j < |r.actions| && TurnsUnhealthy(r.states[j], r.states[j + 1], b)
    ensures i < j && Dials(r, i, DialFail, b) && FailsSince(r, i + 1, b) >= 3
    ensures r.actions[j].Conn? && r.actions[i] == Conn(r.actions[j].h, DialFail)
  {
    TransitionTrips(r, j, b);
    i := TrippingHasCause(r, j, r.actions[j].h);
  }

  // ---- how markUnhealthy begins and ends ----

  /** The handler is inside markUnhealthy. */
  predicate InTrip(hd: Handler) {
    hd.Tripping? || hd.Swapping?
  }

  ghost predicate InTripOn(s: State, h: Id, b: Id) {
    h in s.handlers && InTrip(s.handlers[h]) && s.handlers[h].b == b
  }

  ghost predicate Marked(s: State, b: Id) {
    b in s.backends && s.backends[b].health == Unhealthy
  }

  lemma ConnEndsTrip(s: State, h: Id, e: Event)
    requires ConnEnabled(s, h, e) && InTrip(s.handlers[h])
    ensures var s', b := ConnApply(s, h, e), s.handlers[h].b;
            InTripOn(s', h, b) || (Marked(s', b) && s'.handlers[h] == Leaving(s.handlers[h].li, b))
  {}

  /** In every run, whatever the sync and other handlers do in between, a handler inside
      markUnhealthy stays there until a step after which its backend is unhealthy. */
  lemma TripEndsUnhealthy(r: Run, m: nat, h: Id, b: Id)
    requires r.FromInit() && m < |r.actions| && InTripOn(r.states[m], h, b)
    ensures var s, s' := r.states[m], r.states[m + 1];
            || InTripOn(s', h, b)
            || (r.actions[m].Conn? && r.actions[m].h == h && Marked(s', b)
                && s'.handlers[h] == Leaving(s.handlers[h].li, b))
  {
    match r.actions[m]
    case Accept(_, _) =>
    case Engine(step) => EngineHealthOnly(r.states[m], step);
    case Conn(g, e) =>
      OtherHandlersKept(r.states[m], g, e);
      if g == h {
        ConnEndsTrip(r.states[m], h, e);
      }
  }

  lemma ConnBeginsTrip(s: State, h: Id, e: Event)
    requires ConnEnabled(s, h, e) && !InTrip(s.handlers[h])
    ensures InTrip(ConnApply(s, h, e).handlers[h]) <==> e == DialFail && s.backends[s.handlers[h].b].fails + 1 >= 3
    ensures e == DialFail ==>
              ConnApply(s, h, e).backends[s.handlers[h].b].fails == s.backends[s.handlers[h].b].fails + 1
    ensures InTrip(ConnApply(s, h, e).handlers[h]) ==> ConnApply(s, h, e).handlers[h].b == s.handlers[h].b
  {}

  /** In every run a step takes a handler into markUnhealthy exactly if it is a failed dial
      of the handler that is at least the third since the backend's last successful dial. */
  lemma TripBeginsIff(r: Run, m: nat, h: Id, b: Id)
    requires r.FromInit() && m < |r.actions| && !InTripOn(r.states[m], h, b)
    ensures InTripOn(r.states[m + 1], h, b)
            <==> r.actions[m] == Conn(h, DialFail) && Dials(r, m, DialFail, b) && FailsSince(r, m + 1, b) >= 3
  {
    var s, a := r.states[m], r.actions[m];
    if InTripOn(r.states[m + 1], h, b) {
      TrippingStep(s, a, h);
    }
    if a.Conn? && h in s.handlers {
      OtherHandlersKept(s, a.h, a.event);
      if a.h == h && !InTrip(s.handlers[h]) {
        ConnBeginsTrip(s, h, a.event);
      }
    }
    if Dials(r, m, DialFail, b) {
      DialNeedsBackend(r, m, DialFail, b);
      FailureCounterIsExact(r, m, b);
    }
  }

  /** So a third failure is never without effect: when the handler is no longer inside
      markUnhealthy, its backend has been unhealthy at some moment since the failure. */
  lemma {:induction false} ThirdFailureMarks(r: Run, i: nat, j: nat, h: Id, b: Id) returns (m: nat)
    requires r.FromInit() && i < j < |r.states|
    requires r.actions[i] == Conn(h, DialFail) && Dials(r, i, DialFail, b) && FailsSince(r, i + 1, b) >= 3
    ensures InTripOn(r.states[j], h, b) || (i < m <= j && Marked(r.states[m], b))
  {
    m := j;
    if j == i + 1 {
      TripBeginsIff(r, i, h, b);
    } else {
      m := ThirdFailureMarks(r, i, j - 1, h, b);
      if InTripOn(r.states[j - 1], h, b) {
        TripEndsUnhealthy(r, j - 1, h, b);
        m := j;
      }
    }
  }

  lemma SwappingStep(s: State, a: Action, h: Id)
    requires Enabled(s, a) && h in Apply(s, a).handlers && Apply(s, a).handlers[h].Swapping?
    ensures h in s.handlers
    ensures var hd, hd' := s.handlers[h], Apply(s, a).handlers[h];
            || hd == hd'
            || (a == Conn(h, LoadHealth) && hd.Tripping? && hd.b == hd'.b
                && hd.b in s.backends && s.backends[hd.b].health == hd'.seen)
  {
    match a
    case Accept(_, _) =>
    case Engine(step) => EngineHealthOnly(s, step);
    case Conn(g, e) => OtherHandlersKept(s, g, e);
  }

  /** The health a handler expects in its compare-and-swap is the one it loaded in step i, and
      it has not left the loop since: the swap can fail only if another step changed it. */
  lemma {:induction false} SwapExpectsLoaded(r: Run, n: nat, h: Id) returns (i: nat)
    requires r.FromInit() && n < |r.states| && h in r.states[n].handlers && r.states[n].handlers[h].Swapping?
    ensures i < n && r.actions[i] == Conn(h, LoadHealth) && InTripOn(r.states[i], h, r.states[n].handlers[h].b)
    ensures r.states[n].handlers[h].b in r.states[i].backends
    ensures r.states[i].backends[r.states[n].handlers[h].b].health == r.states[n].handlers[h].seen
    ensures forall x | i < x <= n :: h in r.states[x].handlers && r.states[x].handlers[h] == r.states[n].handlers[h]
  {
    SwappingStep(r.states[n - 1], r.actions[n - 1], h);
    if r.states[n - 1].handlers[h].Swapping? {
      i := SwapExpectsLoaded(r, n - 1, h);
    } else {
      i := n - 1;
    }
  }

  // ---- is Unhealthy final? ----

  predicate Recovers(s: State, s': State, b: Id) {
    b in s.backends && s.backends[b].health == Unhealthy && b in s'.backends && s'.backends[b].health != Unhealthy
  }

  /** The sync is between its check of b and its store to b. */
  predicate StoringTo(s: State, b: Id) {
    s.sync.Storing? && SectionLive(s) && s.sync.k in Entries(s) && Entries(s)[s.sync.k] == b
  }

  /** Only a sync's store of Active makes an unhealthy backend healthy again. */
  lemma RecoveryIsStore(s: State, a: Action, b: Id)
    requires Enabled(s, a) && b in s.backends
    ensures Recovers(s, Apply(s, a), b)
            <==> a == Engine(StoreActive) && StoringTo(s, b) && s.backends[b].health == Unhealthy
  {
    if a.Conn? {
      ConnApplyFrame(s, a.h, a.event);
    } else if a.Engine? && s.backends[b].health == Unhealthy {
      EngineRecovery(s, a.step, b);
    }
  }

  lemma EngineRecovery(s: State, a: SyncStep, b: Id)
    requires EngineEnabled(s, a) && b in s.backends && s.backends[b].health == Unhealthy
    ensures b in EngineApply(s, a).backends
    ensures EngineApply(s, a).backends[b].health != Unhealthy <==> a.StoreActive? && StoringTo(s, b)
  {}

  lemma EngineEntersStoring(s: State, a: SyncStep, b: Id)
    requires EngineEnabled(s, a) && StoringTo(EngineApply(s, a), b)
    ensures a.AddFound? && b in EngineApply(s, a).backends && EngineApply(s, a).backends[b].health == Draining
  {}

  lemma StoringStep(s: State, a: Action, b: Id)
    requires Progress(s) && Enabled(s, a) && StoringTo(Apply(s, a), b)
    ensures || (!a.Engine? && StoringTo(s, b))
            || (a.Engine? && b in Apply(s, a).backends && Apply(s, a).backends[b].health == Draining)
  {
    match a
    case Accept(_, _) =>
    case Conn(h, e) =>
      ConnApplyFrame(s, h, e);
      assert Locked(s, s.sync.sec.li);
    case Engine(step) => EngineEntersStoring(s, step, b);
  }

  /** Under a sync that is about to store to b, an unhealthy b was so before or trips now. */
  lemma StoringLost(s: State, a: Action, b: Id)
    requires Inv(s) && SeenOk(s) && Enabled(s, a) && StoringTo(Apply(s, a), b)
    requires b in Apply(s, a).backends && Apply(s, a).backends[b].health == Unhealthy
    ensures StoringTo(s, b) && b in s.backends
    ensures Trips(s, a, b) || s.backends[b].health == Unhealthy
  {
    StoringStep(s, a, b);
    TripIsTransition(s, a, b);
  }

  /** A trip, with the sync between its check of b and its store to b from then up to n. */
  ghost predicate Window(r: Run, m: nat, n: nat, b: Id) {
    && |r.states| == |r.actions| + 1 && m < n < |r.states|
    && Trips(r.states[m], r.actions[m], b)
    && forall x | m <= x <= n :: StoringTo(r.states[x], b)
  }

  lemma StoringLostAt(r: Run, m: nat, b: Id)
    requires r.FromInit() && m < |r.actions| && StoringTo(r.states[m + 1], b)
    requires b in r.states[m + 1].backends && r.states[m + 1].backends[b].health == Unhealthy
    ensures StoringTo(r.states[m], b) && b in r.states[m].backends
    ensures Trips(r.states[m], r.actions[m], b) || r.states[m].backends[b].health == Unhealthy
  {
    RunInv(r, m);
    SeenIsHealthy(r, m);
    StoringLost(r.states[m], r.actions[m], b);
  }

  lemma {:induction false} WindowFound(r: Run, n: nat, b: Id) returns (m: nat)
    requires r.FromInit() && n < |r.states| && StoringTo(r.states[n], b)
    requires b in r.states[n].backends && r.states[n].backends[b].health == Unhealthy
    ensures Window(r, m, n, b)
  {
    StoringLostAt(r, n - 1, b);
    if Trips(r.states[n - 1], r.actions[n - 1], b) {
      m := n - 1;
    } else {
      m := WindowFound(r, n - 1, b);
    }
  }

  lemma StoringStaysUnhealthy(s: State, a: Action, b: Id)
    requires Enabled(s, a) && b in s.backends && s.backends[b].health == Unhealthy
    requires StoringTo(Apply(s, a), b)
    ensures b in Apply(s, a).backends && Apply(s, a).backends[b].health == Unhealthy
  {
    FailsStep(s, a, b);
    RecoveryIsStore(s, a, b);
  }

  lemma {:induction false} WindowLeavesUnhealthy(r: Run, m: nat, n: nat, b: Id)
    requires r.FromInit() && Window(r, m, n, b)
    ensures b in r.states[n].backends && r.states[n].backends[b].health == Unhealthy
  {
    if n == m + 1 {
      TransitionTrips(r, m, b);
    } else {
      WindowLeavesUnhealthy(r, m, n - 1, b);
      StoringStaysUnhealthy(r.states[n - 1], r.actions[n - 1], b);
    }
  }

  /** In every run a backend stops being unhealthy exactly when a sync stores Active to it
      and some handler's markUnhealthy succeeded on it between the sync's check and store. */
  lemma LostUnhealthyHitTheWindow(r: Run, j: nat, b: Id)
    requires r.FromInit() && j < |r.actions|
    ensures Recovers(r.states[j], r.states[j + 1], b)
            <==> r.actions[j] == Engine(StoreActive) && exists m :: Window(r, m, j, b)
  {
    if b in r.states[j].backends {
      RecoveryIsStore(r.states[j], r.actions[j], b);
      if Recovers(r.states[j], r.states[j + 1], b) {
        var m := WindowFound(r, j, b);
      }
    }
    if m :| Window(r, m, j, b) {
      WindowLeavesUnhealthy(r, m, j, b);
    }
  }

  /** The sync's check and its store are never separated by another step. */
  ghost predicate AtomicReactivation(r: Run) {
    forall m {:trigger r.actions[m]} | 0 <= m < |r.actions| && m < |r.states| && r.states[m].sync.Storing? ::
      r.actions[m] == Engine(StoreActive)
  }

  lemma AtomicStep(r: Run, j: nat, b: Id)
    requires r.FromInit() && AtomicReactivation(r) && j < |r.actions|
    requires b in r.states[j].backends && r.states[j].backends[b].health == Unhealthy
    ensures b in r.states[j + 1].backends && r.states[j + 1].backends[b].health == Unhealthy
  {
    FailsStep(r.states[j], r.actions[j], b);
    LostUnhealthyHitTheWindow(r, j, b);
  }

  /** If the check for Draining and the store of Active were one step, Unhealthy would be final. */
  lemma {:induction false} UnhealthyIsFinalIfAtomic(r: Run, i: nat, j: nat, b: Id)
    requires r.FromInit() && AtomicReactivation(r) && i <= j < |r.states|
    requires b in r.states[i].backends && r.states[i].backends[b].health == Unhealthy
    ensures b in r.states[j].backends && r.states[j].backends[b].health == Unhealthy
  {
    if i < j {
      UnhealthyIsFinalIfAtomic(r, i, j - 1, b);
      AtomicStep(r, j - 1, b);
    }
  }
}
