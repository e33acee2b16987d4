/** The agent when RPCs fail or a resource changes its service: it logs failures and records
    the endpoints all the same, so what it knows is what it last tried for the resource, and
    the registry holds what last succeeded for the service. */
module AgentFailures {
  import opened Registry
  import opened Routing
  import opened Agent
  import opened AgentRuns

  /** The step is an RPC about the endpoint for the resource, whatever becomes of it. */
  predicate Tries(w: World, s: Step, key: string, e: BackendKey) {
    (s.Rpc? || s.Lost?) && s.e == e && !w.phase.Idle? && w.phase.job.key == key
  }

  /** The step is an RPC about the endpoint for the service, on behalf of any resource, that
      reaches the registry and is accepted. */
  predicate Lands(w: World, s: Step, service: string, e: BackendKey) {
    s.Rpc? && s.e == e && !w.phase.Idle? && w.phase.job.id.Service() == service && Accepts(w, e)
  }

  /** Any RPC may be lost or refused, resources may change or share their services. */
  ghost predicate AnyRun(r: Run) {
    r.Starts() && forall i {:trigger r.steps[i]} | 0 <= i < |r.steps| :: Sane(r.steps[i])
  }

  /** Other clients stay away from the service. */
  ghost predicate Alone(r: Run, service: string) {
    forall i {:trigger r.steps[i]} | 0 <= i < |r.steps| && r.steps[i].Other? :: OpService(r.steps[i].op) != service
  }

  /** Among the first n steps, the last RPC tried for the endpoint was a registration. */
  predicate LastTried(r: Run, n: nat, key: string, e: BackendKey)
    requires n <= |r.steps| && n < |r.states|
  {
    n > 0 && if Tries(r.states[n - 1], r.steps[n - 1], key, e) then r.states[n - 1].phase.Registering?
             else LastTried(r, n - 1, key, e)
  }

  /** Among the first n steps, the last RPC for the endpoint that succeeded was a
      registration; with none, the service had the endpoint from the start. */
  predicate LastLanded(r: Run, n: nat, service: string, e: BackendKey)
    requires n <= |r.steps| && n < |r.states|
  {
    if n == 0 then e in BackendsOf(r.states[0].reg, service)
    else if Lands(r.states[n - 1], r.steps[n - 1], service, e) then r.states[n - 1].phase.Registering?
    else LastLanded(r, n - 1, service, e)
  }

  // ---- one step ----

  ghost predicate Sound(w: World) {
    Inv(w.reg) && JobSane(w) && KnownOk(w)
  }

  lemma SoundStep(w: World, s: Step)
    requires Sound(w) && Enabled(w, s) && Sane(s)
    ensures Sound(Next(w, s))
  {
    match s
    case Rpc(e) => RpcEffect(w, e);
    case Lost(_) =>
    case Other(op) => ApplyInv(w.reg, op);
    case _ => LocalSane(w, s);
  }

  lemma RegistryStep(w: World, s: Step, service: string, e: BackendKey)
    requires Sound(w) && Enabled(w, s) && Sane(s) && (s.Other? ==> OpService(s.op) != service)
    ensures e in BackendsOf(Next(w, s).reg, service)
            <==> if Lands(w, s, service, e) then w.phase.Registering? else e in BackendsOf(w.reg, service)
  {
    match s
    case Rpc(f) =>
      RpcEffect(w, f);
      if w.phase.job.id.Service() != service {
        OtherService(w.reg, Next(w, s).reg, w.phase.job.id.Service(), service);
      }
    case Other(op) => OtherBackends(w.reg, op, service);
    case _ =>
  }

  lemma LostLikeRpc(w: World, e: BackendKey, key: string)
    requires Enabled(w, Lost(e))
    ensures Enabled(w, Rpc(e)) && Expected(Next(w, Lost(e)), key) == Expected(Next(w, Rpc(e)), key)
  {}

  lemma ExpectedStep(w: World, s: Step, key: string, e: BackendKey)
    requires Sound(w) && Enabled(w, s) && Sane(s)
    ensures e in Expected(Next(w, s), key)
            <==> if Tries(w, s, key, e) then w.phase.Registering? else e in Expected(w, key)
  {
    match s
    case Rpc(f) => RpcExpected(w, f, key);
    case Lost(f) =>
      LostLikeRpc(w, f, key);
      RpcExpected(w, f, key);
    case Other(_) =>
    case _ => LocalExpected(w, s, key);
  }

  // ---- every run ----

  lemma {:induction false} RunSound(r: Run, n: nat)
    requires AnyRun(r) && n < |r.states|
    ensures Sound(r.states[n])
  {
    if n > 0 {
      RunSound(r, n - 1);
      SoundStep(r.states[n - 1], r.steps[n - 1]);
    }
  }

  /** In every state of every run, a service left alone by other clients has exactly the
      endpoints whose last successful RPC for it was a registration. */
  lemma {:induction false} RegistryHoldsLastLanded(r: Run, n: nat, service: string, e: BackendKey)
    requires AnyRun(r) && Alone(r, service) && n < |r.states|
    ensures e in BackendsOf(r.states[n].reg, service) <==> LastLanded(r, n, service, e)
  {
    if n > 0 {
      RunSound(r, n - 1);
      RegistryHoldsLastLanded(r, n - 1, service, e);
      RegistryStep(r.states[n - 1], r.steps[n - 1], service, e);
    }
  }

  /** The agent expects exactly the endpoints whose last RPC for the resource, successful or
      not, was a registration. */
  lemma {:induction false} ExpectedIsLastTried(r: Run, n: nat, key: string, e: BackendKey)
    requires AnyRun(r) && n < |r.states|
    ensures e in Expected(r.states[n], key) <==> LastTried(r, n, key, e)
  {
    if n > 0 {
      RunSound(r, n - 1);
      ExpectedIsLastTried(r, n - 1, key, e);
      ExpectedStep(r.states[n - 1], r.steps[n - 1], key, e);
    }
  }

  /** Whatever RPCs fail and whatever services the resources have had, between events a
      service has what the agent knows of a resource exactly if, for every endpoint, the last
      RPC tried for the resource and the last one that succeeded for the service agree. */
  lemma AgreementIffRpcsLanded(r: Run, n: nat, key: string, service: string)
    requires AnyRun(r) && Alone(r, service) && n < |r.states| && r.states[n].phase.Idle?
    ensures forall e :: e in KnownOf(r.states[n], key).Values <==> LastTried(r, n, key, e)
    ensures forall e :: e in BackendsOf(r.states[n].reg, service) <==> LastLanded(r, n, service, e)
    ensures BackendsOf(r.states[n].reg, service) == KnownOf(r.states[n], key).Values
            <==> forall e :: LastTried(r, n, key, e) <==> LastLanded(r, n, service, e)
  {
    forall e
      ensures e in KnownOf(r.states[n], key).Values <==> LastTried(r, n, key, e)
      ensures e in BackendsOf(r.states[n].reg, service) <==> LastLanded(r, n, service, e)
    {
      ExpectedIsLastTried(r, n, key, e);
      RegistryHoldsLastLanded(r, n, service, e);
    }
  }

  /** An endpoint the agent knows is not registered again by any later reconcile. */
  lemma KnownIsNotRetried(w: World, key: string, id: Identity, requested: int, current: Endpoints, e: BackendKey)
    requires w.phase.Idle? && OwnKeys(KnownOf(w, key)) && OwnKeys(current) && e in KnownOf(w, key).Values
    ensures e !in Next(w, Reconcile(key, id, requested, current)).phase.todo
  {
    FreshIsDifference(current, KnownOf(w, key));
  }

  // ---- a lost registration, and a changed service ----

  function One(e: BackendKey): Endpoints {
    map[KeyOf(e) := e]
  }

  lemma FreshOfOne(e: BackendKey)
    ensures Fresh(One(e), map[]) == {e} && Fresh(map[], One(e)) == {} && Fresh(One(e), One(e)) == {}
  {
    assert KeyOf(e) in One(e);
  }

  ghost predicate Goes(w: World, s: Step, w': World) {
    Enabled(w, s) && Sane(s) && w' == Next(w, s)
  }

  /** The agent starts here, and the resource may be announced. */
  ghost predicate AtStart(w: World, id: Identity, e: BackendKey) {
    && Inv(w.reg) && w.known == map[] && w.phase == Idle
    && id.Service() !in w.reg.services && id.serviceName != "" && ValidEndpoint(e)
  }

  /** The first reconcile of a resource with one endpoint begins. */
  lemma FirstReconcile(w: World, job: Job, e: BackendKey)
    requires AtStart(w, job.id, e) && job == Job(job.key, job.id, job.requested, One(e), map[], false)
    ensures Goes(w, Reconcile(job.key, job.id, job.requested, One(e)), w.(phase := Registering(job, {e})))
  {
    FreshOfOne(e);
  }

  /** Its end, whatever the registry holds by then. */
  lemma FinishFirst(w: World, job: Job, e: BackendKey)
    requires w.known == map[] && w.phase == Idle && job.current == One(e) && job.before == map[] && !job.forget
    ensures Goes(w.(phase := Registering(job, {})), Registered, w.(phase := Deregistering(job, {})))
    ensures Goes(w.(phase := Deregistering(job, {})), Finish, w.(known := map[job.key := One(e)]))
  {
    FreshOfOne(e);
  }

  lemma LoseOne(w: World, job: Job, e: BackendKey)
    ensures Goes(w.(phase := Registering(job, {e})), Lost(e), w.(phase := Registering(job, {})))
  {
    assert {e} - {e} == {};
  }

  /** The first reconcile of a resource with one endpoint, whose RPC is lost. */
  function LostRun(w: World, key: string, id: Identity, requested: int, e: BackendKey): Run {
    var job := Job(key, id, requested, One(e), map[], false);
    Run([w, w.(phase := Registering(job, {e})), w.(phase := Registering(job, {})),
         w.(phase := Deregistering(job, {})), w.(known := map[key := One(e)])],
        [Reconcile(key, id, requested, One(e)), Lost(e), Registered, Finish])
  }

  /** After it the agent knows the endpoint and the registry does not, and reconciling the
      same endpoints again leaves nothing to do, so the loss is never repaired. */
  lemma LostRegistrationStays(w: World, key: string, id: Identity, requested: int, e: BackendKey)
    requires AtStart(w, id, e)
    ensures AnyRun(LostRun(w, key, id, requested, e))
    ensures var end := LostRun(w, key, id, requested, e).states[4];
            && end.phase == Idle && KnownOf(end, key) == One(e) && BackendsOf(end.reg, id.Service()) == {}
            && Next(end, Reconcile(key, id, requested, One(e))).phase.todo == {}
  {
    var job := Job(key, id, requested, One(e), map[], false);
    FirstReconcile(w, job, e);
    LoseOne(w, job, e);
    FinishFirst(w, job, e);
    FreshOfOne(e);
  }

  /** A resource with one endpoint is announced, successfully, and then again under another
      service. */
  function RenameRun(w: World, key: string, id: Identity, other: Identity, requested: int, e: BackendKey): Run {
    var job := Job(key, id, requested, One(e), map[], false);
    var again := Job(key, other, requested, One(e), One(e), false);
    var added := w.(reg := AddBackend(w.reg, RegisterOp(id, requested, e)).0);
    var known := added.(known := map[key := One(e)]);
    Run([w, w.(phase := Registering(job, {e})), added.(phase := Registering(job, {})),
         added.(phase := Deregistering(job, {})), known,
         known.(phase := Registering(again, {})), known.(phase := Deregistering(again, {})), known],
        [Reconcile(key, id, requested, One(e)), Rpc(e), Registered, Finish,
         Reconcile(key, other, requested, One(e)), Registered, Finish])
  }

  lemma RegisterOne(w: World, job: Job, e: BackendKey)
    ensures Goes(w.(phase := Registering(job, {e})), Rpc(e),
                 w.(reg := AddBackend(w.reg, RegisterOp(job.id, job.requested, e)).0, phase := Registering(job, {})))
  {
    assert {e} - {e} == {};
  }

  lemma ReconcileAgain(w: World, job: Job, e: BackendKey)
    requires w.phase == Idle && w.known == map[job.key := One(e)] && job.id.serviceName != "" && ValidEndpoint(e)
    requires job == Job(job.key, job.id, job.requested, One(e), One(e), false)
    ensures Goes(w, Reconcile(job.key, job.id, job.requested, One(e)), w.(phase := Registering(job, {})))
    ensures Goes(w.(phase := Registering(job, {})), Registered, w.(phase := Deregistering(job, {})))
    ensures Goes(w.(phase := Deregistering(job, {})), Finish, w)
  {
    FreshOfOne(e);
    assert w.known[job.key := One(e)] == w.known;
  }

  ghost predicate StepGoes(r: Run, i: nat)
    requires i < |r.steps| && i + 1 < |r.states|
  {
    Goes(r.states[i], r.steps[i], r.states[i + 1])
  }

  lemma RenameRunBegins(w: World, key: string, id: Identity, other: Identity, requested: int, e: BackendKey)
    requires AtStart(w, id, e)
    ensures forall i: nat | i < 4 :: StepGoes(RenameRun(w, key, id, other, requested, e), i)
  {
    var job := Job(key, id, requested, One(e), map[], false);
    FirstReconcile(w, job, e);
    RegisterOne(w, job, e);
    FinishFirst(w.(reg := AddBackend(w.reg, RegisterOp(id, requested, e)).0), job, e);
  }

  lemma RenameRunEnds(w: World, key: string, id: Identity, other: Identity, requested: int, e: BackendKey)
    requires AtStart(w, id, e) && other.serviceName != ""
    ensures forall i: nat | 4 <= i < 7 :: StepGoes(RenameRun(w, key, id, other, requested, e), i)
  {
    var again := Job(key, other, requested, One(e), One(e), false);
    ReconcileAgain(RenameRun(w, key, id, other, requested, e).states[4], again, e);
  }

  lemma RenameRunGoes(w: World, key: string, id: Identity, other: Identity, requested: int, e: BackendKey)
    requires AtStart(w, id, e) && other.serviceName != ""
    ensures AnyRun(RenameRun(w, key, id, other, requested, e))
  {
    var r := RenameRun(w, key, id, other, requested, e);
    RenameRunBegins(w, key, id, other, requested, e);
    RenameRunEnds(w, key, id, other, requested, e);
    forall i: nat | i < 7
      ensures StepGoes(r, i)
    {}
    GoesIsAnyRun(r);
  }

  lemma GoesIsAnyRun(r: Run)
    requires |r.states| == |r.steps| + 1 && forall i: nat | i < |r.steps| :: StepGoes(r, i)
    requires Inv(r.states[0].reg) && r.states[0].known == map[] && r.states[0].phase == Idle
    ensures AnyRun(r)
  {
    forall i: nat | i < |r.steps|
      ensures Enabled(r.states[i], r.steps[i]) && Sane(r.steps[i]) && r.states[i + 1] == Next(r.states[i], r.steps[i])
    {
      assert StepGoes(r, i);
    }
  }

  /** No RPC fails, and yet the agent knows an endpoint that its service does not have, while
      the former service still has it. */
  lemma RenamedServiceStaysEmpty(w: World, key: string, id: Identity, other: Identity, requested: int, e: BackendKey)
    requires AtStart(w, id, e) && !Refuses(w.reg, id, requested)
    requires other.serviceName != "" && other.Service() != id.Service() && other.Service() !in w.reg.services
    ensures AnyRun(RenameRun(w, key, id, other, requested, e))
    ensures Accepts(RenameRun(w, key, id, other, requested, e).states[1], e)
    ensures var end := RenameRun(w, key, id, other, requested, e).states[7];
            && end.phase == Idle && KnownOf(end, key) == One(e)
            && BackendsOf(end.reg, other.Service()) == {} && BackendsOf(end.reg, id.Service()) == {e}
  {
    RenameRunGoes(w, key, id, other, requested, e);
    RegisterFails(w.reg, id, requested, e);
    RegisterEffect(w.reg, id, requested, e);
    OtherService(w.reg, AddBackend(w.reg, RegisterOp(id, requested, e)).0, id.Service(), other.Service());
  }
}
