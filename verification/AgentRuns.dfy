/** The agent against a shared registry: every RPC is one step, taken in any order the maps
    are iterated in, and other clients may act between any two of them. */
module AgentRuns {
  import opened Registry
  import opened Routing
  import opened Agent

  /** One reconcile in progress.  Withdrawing a resource reconciles it to no endpoints and
      then forgets it. */
  datatype Job = Job(key: string, id: Identity, requested: int, current: Endpoints, before: Endpoints, forget: bool)

  datatype Phase =
    | Idle
    | Registering(job: Job, todo: set<BackendKey>)
    | Deregistering(job: Job, todo: set<BackendKey>)

  datatype World = World(reg: Table, known: map<string, Endpoints>, phase: Phase)

  datatype Step =
    | Reconcile(key: string, id: Identity, requested: int, current: Endpoints)
    | Withdraw(key: string, id: Identity)
    | Rpc(e: BackendKey)        // the RPC reaches the registry
    | Lost(e: BackendKey)       // the RPC fails on the way: logged and ignored
    | Registered
    | Finish
    | Other(op: Op)             // a request of another client

  function KnownOf(w: World, key: string): Endpoints {
    if key in w.known then w.known[key] else map[]
  }

  function Start(w: World, job: Job): World {
    w.(phase := Registering(job, Fresh(job.current, job.before)))
  }

  predicate Enabled(w: World, s: Step) {
    match s
    case Reconcile(_, _, _, _) => w.phase.Idle?
    case Withdraw(_, _) => w.phase.Idle?
    case Rpc(e) => !w.phase.Idle? && e in w.phase.todo
    case Lost(e) => !w.phase.Idle? && e in w.phase.todo
    case Registered => w.phase.Registering? && w.phase.todo == {}
    case Finish => w.phase.Deregistering? && w.phase.todo == {}
    case Other(_) => true
  }

  function Next(w: World, s: Step): World
    requires Enabled(w, s)
  {
    match s
    case Reconcile(key, id, requested, current) =>
      Start(w, Job(key, id, requested, current, KnownOf(w, key), false))
    case Withdraw(key, id) => Start(w, Job(key, id, 0, map[], KnownOf(w, key), true))
    case Rpc(e) =>
      var job := w.phase.job;
      if w.phase.Registering?
      then w.(reg := AddBackend(w.reg, RegisterOp(job.id, job.requested, e)).0,
              phase := Registering(job, w.phase.todo - {e}))
      else w.(reg := RemoveBackend(w.reg, DeregisterOp(job.id, e)).0,
              phase := Deregistering(job, w.phase.todo - {e}))
    case Lost(e) =>
      if w.phase.Registering? then w.(phase := Registering(w.phase.job, w.phase.todo - {e}))
      else w.(phase := Deregistering(w.phase.job, w.phase.todo - {e}))
    case Registered =>
      var job := w.phase.job;
      w.(phase := Deregistering(job, Fresh(job.before, job.current)))
    case Finish =>
      var job := w.phase.job;
      w.(known := if job.forget then w.known - {job.key} else w.known[job.key := job.current], phase := Idle)
    case Other(op) => w.(reg := Apply(w.reg, op))
  }

  /** Events carry a usable service name and valid endpoints. */
  ghost predicate Sane(s: Step) {
    match s
    case Reconcile(_, id, _, current) => id.serviceName != "" && ValidEndpoints(current)
    case Withdraw(_, id) => id.serviceName != ""
    case _ => true
  }

  /** The registry accepts the RPC; it never turns down a deregistration. */
  predicate Accepts(w: World, e: BackendKey) {
    w.phase.Registering? ==> AddBackend(w.reg, RegisterOp(w.phase.job.id, w.phase.job.requested, e)).1.Ok?
  }

  // ---- the assumptions of the agreement claim ----

  type Identities = map<string, Identity>

  /** Resources have usable identities, no two the same service. */
  ghost predicate Separate(ids: Identities) {
    && (forall k | k in ids :: ids[k].serviceName != "")
    && (forall j, k | j in ids && k in ids && j != k :: ids[j].Service() != ids[k].Service())
  }

  function OpService(op: Op): string {
    match op
    case Add(e) => ServiceKey(e.account, e.serviceName)
    case Remove(r) => ServiceKey(r.account, r.serviceName)
  }

  /** The step keeps to the fixed identities, announces valid endpoints, its RPC succeeds,
      and other clients stay away from the agent's services. */
  ghost predicate Orderly(ids: Identities, w: World, s: Step) {
    match s
    case Reconcile(key, id, _, current) => key in ids && id == ids[key] && ValidEndpoints(current)
    case Withdraw(key, id) => key in ids && id == ids[key]
    case Rpc(e) => Accepts(w, e)
    case Lost(_) => false
    case Registered => true
    case Finish => true
    case Other(op) => forall k | k in ids :: OpService(op) != ids[k].Service()
  }

  // ---- the invariant ----

  /** What the registry should hold for the resource at this point of the reconcile. */
  function Expected(w: World, key: string): set<BackendKey> {
    if w.phase.Idle? || w.phase.job.key != key then KnownOf(w, key).Values
    else if w.phase.Registering? then
      w.phase.job.before.Values + (Fresh(w.phase.job.current, w.phase.job.before) - w.phase.todo)
    else w.phase.job.current.Values + w.phase.todo
  }

  ghost predicate JobSane(w: World) {
    !w.phase.Idle? ==>
      var job := w.phase.job;
      && job.id.serviceName != "" && job.before == KnownOf(w, job.key)
      && ValidEndpoints(job.current) && ValidEndpoints(job.before) && (job.forget ==> job.current == map[])
      && w.phase.todo <= (if w.phase.Registering? then Fresh(job.current, job.before)
                          else Fresh(job.before, job.current))
  }

  ghost predicate JobOk(ids: Identities, w: World) {
    JobSane(w) && (!w.phase.Idle? ==> w.phase.job.key in ids && w.phase.job.id == ids[w.phase.job.key])
  }

  ghost predicate Agreed(ids: Identities, w: World) {
    Inv(w.reg) && Separate(ids) && JobOk(ids, w) && KnownOk(w) && Matches(ids, w)
  }

  ghost predicate KnownOk(w: World) {
    forall key | key in w.known :: ValidEndpoints(w.known[key])
  }

  ghost predicate Matches(ids: Identities, w: World) {
    forall key | key in ids :: BackendsOf(w.reg, ids[key].Service()) == Expected(w, key)
  }

  lemma TodoIsValid(w: World, e: BackendKey)
    requires JobSane(w) && !w.phase.Idle? && e in w.phase.todo
    ensures ValidEndpoint(e)
  {}

  /** What an RPC that reaches the registry does there. */
  lemma RpcEffect(w: World, e: BackendKey)
    requires Inv(w.reg) && JobSane(w) && Enabled(w, Rpc(e))
    ensures var w', service := Next(w, Rpc(e)), w.phase.job.id.Service();
            var was, now := BackendsOf(w.reg, service), BackendsOf(w'.reg, service);
            && Inv(w'.reg) && OnlyService(w.reg, w'.reg, service)
            && now == if !Accepts(w, e) then was else if w.phase.Registering? then was + {e} else was - {e}
  {
    var job := w.phase.job;
    TodoIsValid(w, e);
    if w.phase.Registering? {
      RegisterEffect(w.reg, job.id, job.requested, e);
    } else {
      DeregisterEffect(w.reg, job.id, e);
    }
  }

  lemma RpcExpected(w: World, e: BackendKey, key: string)
    requires Enabled(w, Rpc(e)) && OwnKeys(w.phase.job.current) && OwnKeys(w.phase.job.before)
    requires w.phase.todo <= if w.phase.Registering? then Fresh(w.phase.job.current, w.phase.job.before)
                             else Fresh(w.phase.job.before, w.phase.job.current)
    ensures Expected(Next(w, Rpc(e)), key) ==
            if w.phase.job.key != key then Expected(w, key)
            else if w.phase.Registering? then Expected(w, key) + {e} else Expected(w, key) - {e}
  {
    FreshIsDifference(w.phase.job.before, w.phase.job.current);
  }

  lemma RpcAgrees(ids: Identities, w: World, e: BackendKey)
    requires Agreed(ids, w) && Enabled(w, Rpc(e)) && Orderly(ids, w, Rpc(e))
    ensures Agreed(ids, Next(w, Rpc(e)))
  {
    var w', job := Next(w, Rpc(e)), w.phase.job;
    RpcEffect(w, e);
    forall key | key in ids
      ensures BackendsOf(w'.reg, ids[key].Service()) == Expected(w', key)
    {
      RpcExpected(w, e, key);
      if key != job.key {
        OtherService(w.reg, w'.reg, job.id.Service(), ids[key].Service());
      }
    }
  }

  lemma OtherService(t: Table, t': Table, service: string, k: string)
    requires OnlyService(t, t', service) && k != service
    ensures BackendsOf(t', k) == BackendsOf(t, k)
  {
    assert k in t.services <==> k in t.services - {service};
    assert k in t'.services <==> k in t'.services - {service};
    assert k in t.services ==> (t.services - {service})[k] == t.services[k];
    assert k in t'.services ==> (t'.services - {service})[k] == t'.services[k];
  }

  lemma OtherBackends(t: Table, op: Op, service: string)
    requires Inv(t) && OpService(op) != service
    ensures BackendsOf(Apply(t, op), service) == BackendsOf(t, service)
  {
    match op
    case Add(e) => AddBackendEffect(t, e);
    case Remove(r) => RemoveBackendEffect(t, r);
  }

  lemma OtherAgrees(ids: Identities, w: World, op: Op)
    requires Agreed(ids, w) && Orderly(ids, w, Other(op))
    ensures Agreed(ids, Next(w, Other(op)))
  {
    ApplyInv(w.reg, op);
    forall key | key in ids
      ensures BackendsOf(Apply(w.reg, op), ids[key].Service()) == Expected(Next(w, Other(op)), key)
    {
      assert Expected(Next(w, Other(op)), key) == Expected(w, key);
      OtherBackends(w.reg, op, ids[key].Service());
    }
  }

  predicate IsLocal(s: Step) {
    !s.Rpc? && !s.Lost? && !s.Other?
  }

  lemma LocalSane(w: World, s: Step)
    requires JobSane(w) && KnownOk(w) && Enabled(w, s) && Sane(s) && IsLocal(s)
    ensures JobSane(Next(w, s)) && KnownOk(Next(w, s)) && Next(w, s).reg == w.reg
  {}

  /** Starting, turning over and finishing a reconcile move no expectation. */
  lemma LocalExpected(w: World, s: Step, key: string)
    requires JobSane(w) && KnownOk(w) && Enabled(w, s) && Sane(s) && IsLocal(s)
    ensures Expected(Next(w, s), key) == Expected(w, key)
  {
    var job := if w.phase.Idle? then Next(w, s).phase.job else w.phase.job;
    FreshIsDifference(job.current, job.before);
    FreshIsDifference(job.before, job.current);
  }

  lemma LocalAgrees(ids: Identities, w: World, s: Step)
    requires Agreed(ids, w) && Enabled(w, s) && Orderly(ids, w, s) && IsLocal(s)
    ensures Agreed(ids, Next(w, s))
  {
    LocalSane(w, s);
    forall key | key in ids
      ensures BackendsOf(w.reg, ids[key].Service()) == Expected(Next(w, s), key)
    {
      LocalExpected(w, s, key);
    }
  }

  lemma StepAgrees(ids: Identities, w: World, s: Step)
    requires Agreed(ids, w) && Enabled(w, s) && Orderly(ids, w, s)
    ensures Agreed(ids, Next(w, s))
  {
    match s
    case Rpc(e) => RpcAgrees(ids, w, e);
    case Other(op) => OtherAgrees(ids, w, op);
    case _ => LocalAgrees(ids, w, s);
  }

  // ---- runs ----

  datatype Run = Run(states: seq<World>, steps: seq<Step>) {
    ghost predicate Follows() {
      && |states| == |steps| + 1
      && forall i {:trigger steps[i]} | 0 <= i < |steps| ::
           Enabled(states[i], steps[i]) && states[i + 1] == Next(states[i], steps[i])
    }

    /** The agent has announced nothing yet. */
    ghost predicate Starts() {
      Follows() && Inv(states[0].reg) && states[0].known == map[] && states[0].phase == Idle
    }

    ghost predicate Steps(ids: Identities) {
      Follows() && forall i {:trigger steps[i]} | 0 <= i < |steps| :: Orderly(ids, states[i], steps[i])
    }

    /** Moreover, its services are not registered. */
    ghost predicate FromFresh(ids: Identities) {
      && Steps(ids) && Starts() && Separate(ids)
      && forall k | k in ids :: ids[k].Service() !in states[0].reg.services
    }
  }

  lemma {:induction false} RunAgrees(ids: Identities, r: Run, n: nat)
    requires r.FromFresh(ids) && n < |r.states|
    ensures Agreed(ids, r.states[n])
  {
    if n > 0 {
      RunAgrees(ids, r, n - 1);
      StepAgrees(ids, r.states[n - 1], r.steps[n - 1]);
    }
  }

  /** Whenever the agent is between events, the registry holds for every resource exactly
      the endpoints the agent knows, and a record exists exactly when there are any. */
  lemma RegistryMatchesKnown(ids: Identities, r: Run, n: nat, key: string)
    requires r.FromFresh(ids) && n < |r.states| && r.states[n].phase.Idle? && key in ids
    ensures var w := r.states[n];
            && BackendsOf(w.reg, ids[key].Service()) == KnownOf(w, key).Values
            && (ids[key].Service() in w.reg.services <==> KnownOf(w, key) != map[])
  {
    RunAgrees(ids, r, n);
    var w := r.states[n];
    var m := KnownOf(w, key);
    if m != map[] {
      var k :| k in m;
      assert m[k] in m.Values;
    }
    if ids[key].Service() in w.reg.services {
      assert GoodRecord(ids[key].Service(), w.reg.services[ids[key].Service()]);
    }
  }

  // ---- every event is carried out ----

  /** Between events the agent can take up any; in a reconcile it has RPCs to send, or goes on
      to the next part. */
  lemma AgentCanMove(w: World)
    ensures w.phase.Idle? ==>
              && (forall key, id, requested, current :: Enabled(w, Reconcile(key, id, requested, current)))
              && forall key, id :: Enabled(w, Withdraw(key, id))
    ensures !w.phase.Idle? ==>
              && (forall e :: Enabled(w, Rpc(e)) <==> e in w.phase.todo)
              && (w.phase.todo == {} ==> Enabled(w, if w.phase.Registering? then Registered else Finish))
  {}

  /** The job of the event at step i is still in progress. */
  lemma {:induction false} JobLasts(r: Run, i: nat, n: nat)
    requires r.Follows() && i < n < |r.states| && (r.steps[i].Reconcile? || r.steps[i].Withdraw?)
    requires forall m | i < m < n :: r.steps[m] != Finish
    ensures !r.states[n].phase.Idle? && r.states[n].phase.job == r.states[i + 1].phase.job
    ensures r.states[n].known == r.states[i].known
  {
    assert Enabled(r.states[n - 1], r.steps[n - 1]) && r.states[n] == Next(r.states[n - 1], r.steps[n - 1]);
    if n > i + 1 {
      JobLasts(r, i, n - 1);
    }
  }

  /** When an event is finished the agent knows its endpoints for the resource, or, after a
      withdrawal, nothing; every other resource is as before. */
  lemma EventIsCarriedOut(r: Run, i: nat, n: nat)
    requires r.Follows() && i < n < |r.steps| && r.steps[n] == Finish
    requires forall m | i < m < n :: r.steps[m] != Finish
    ensures r.steps[i].Reconcile? ==>
              r.states[n + 1].known == r.states[i].known[r.steps[i].key := r.steps[i].current]
    ensures r.steps[i].Withdraw? ==> r.states[n + 1].known == r.states[i].known - {r.steps[i].key}
  {
    if r.steps[i].Reconcile? || r.steps[i].Withdraw? {
      JobLasts(r, i, n);
    }
  }

  /** So in every orderly run the registry has exactly the endpoints of the event when the
      event is finished, and none after a withdrawal. */
  lemma RegistryHasEvent(ids: Identities, r: Run, i: nat, n: nat)
    requires r.FromFresh(ids) && i < n < |r.steps| && r.steps[n] == Finish
    requires r.steps[i].Reconcile? || r.steps[i].Withdraw?
    requires forall m | i < m < n :: r.steps[m] != Finish
    ensures var key := r.steps[i].key;
            && key in ids
            && BackendsOf(r.states[n + 1].reg, ids[key].Service())
               == if r.steps[i].Reconcile? then r.steps[i].current.Values else {}
  {
    assert Orderly(ids, r.states[i], r.steps[i]);
    EventIsCarriedOut(r, i, n);
    RegistryMatchesKnown(ids, r, n + 1, r.steps[i].key);
  }

  // ---- a full replacement keeps the port ----

  /** The reconcile in progress replaces one nonempty endpoint set by another. */
  ghost predicate Replacing(w: World, key: string) {
    !w.phase.Idle? && w.phase.job.key == key && w.phase.job.before != map[] && w.phase.job.current != map[]
  }

  lemma RunRegistryInv(ids: Identities, r: Run, n: nat)
    requires r.FromFresh(ids) && n < |r.states|
    ensures Inv(r.states[n].reg)
  {
    RunAgrees(ids, r, n);
  }

  lemma AliveWhileReplacing(ids: Identities, r: Run, n: nat, key: string)
    requires r.FromFresh(ids) && n < |r.states| && Replacing(r.states[n], key)
    ensures key in ids && ids[key].Service() in r.states[n].reg.services
  {
    RunAgrees(ids, r, n);
    var w := r.states[n];
    var m := if w.phase.Registering? then w.phase.job.before else w.phase.job.current;
    var k :| k in m;
    assert m[k] in m.Values;
    assert m[k] in Expected(w, key);
  }

  lemma StepKeepsPort(w: World, s: Step, service: string)
    requires Inv(w.reg) && Enabled(w, s) && service in w.reg.services && service in Next(w, s).reg.services
    ensures Next(w, s).reg.services[service].externalPort == w.reg.services[service].externalPort
  {
    match s
    case Rpc(e) =>
      if w.phase.Registering? {
        ApplyKeepsPort(w.reg, Add(RegisterOp(w.phase.job.id, w.phase.job.requested, e)), service);
      } else {
        ApplyKeepsPort(w.reg, Remove(DeregisterOp(w.phase.job.id, e)), service);
      }
    case Other(op) => ApplyKeepsPort(w.reg, op, service);
    case _ =>
  }

  lemma ReplacingLasts(w: World, s: Step, key: string)
    requires Enabled(w, s) && Replacing(w, key) && s != Finish
    ensures Replacing(Next(w, s), key)
  {}

  lemma {:induction false} ReplacingThroughout(ids: Identities, r: Run, i: nat, n: nat, key: string)
    requires r.Steps(ids) && i < n < |r.states|
    requires r.steps[i].Reconcile? && r.steps[i].key == key
    requires KnownOf(r.states[i], key) != map[] && r.steps[i].current != map[]
    requires forall m | i < m < n :: r.steps[m] != Finish
    ensures Replacing(r.states[n], key)
  {
    if n > i + 1 {
      ReplacingThroughout(ids, r, i, n - 1, key);
      ReplacingLasts(r.states[n - 1], r.steps[n - 1], key);
    }
  }

  lemma RunStepKeepsPort(ids: Identities, r: Run, n: nat, service: string)
    requires r.FromFresh(ids) && n < |r.steps|
    requires service in r.states[n].reg.services && service in r.states[n + 1].reg.services
    ensures r.states[n + 1].reg.services[service].externalPort == r.states[n].reg.services[service].externalPort
  {
    RunRegistryInv(ids, r, n);
    StepKeepsPort(r.states[n], r.steps[n], service);
  }

  /** The service is registered from `i` on, always on the same port. */
  ghost predicate SamePort(r: Run, i: nat, n: nat, service: string)
    requires i < |r.states| && n < |r.states|
  {
    && service in r.states[i].reg.services && service in r.states[n].reg.services
    && r.states[n].reg.services[service].externalPort == r.states[i].reg.services[service].externalPort
  }

  ghost predicate KeepsPort(r: Run, m: nat, service: string) {
    m + 1 < |r.states| && SamePort(r, m, m + 1, service)
  }

  lemma {:induction false} SamePortChain(r: Run, i: nat, n: nat, service: string)
    requires i < n < |r.states| && forall m | i <= m < n :: KeepsPort(r, m, service)
    ensures SamePort(r, i, n, service)
  {
    assert KeepsPort(r, n - 1, service);
    if n > i + 1 {
      SamePortChain(r, i, n - 1, service);
    }
  }

  /** From the start of a reconcile between two nonempty endpoint sets, even disjoint ones,
      to its end, the service's record exists at every step and keeps its external port. */
  lemma PortSurvivesReplacement(ids: Identities, r: Run, i: nat, n: nat, key: string)
    requires r.FromFresh(ids) && i < n < |r.states|
    requires r.steps[i].Reconcile? && r.steps[i].key == key
    requires KnownOf(r.states[i], key) != map[] && r.steps[i].current != map[]
    requires forall m | i < m < n :: r.steps[m] != Finish
    ensures key in ids && SamePort(r, i, n, ids[key].Service())
  {
    RegistryMatchesKnown(ids, r, i, key);
    var service := ids[key].Service();
    forall m | i < m <= n
      ensures service in r.states[m].reg.services
    {
      ReplacingThroughout(ids, r, i, m, key);
      AliveWhileReplacing(ids, r, m, key);
    }
    forall m | i <= m < n
      ensures KeepsPort(r, m, service)
    {
      RunStepKeepsPort(ids, r, m, service);
    }
    SamePortChain(r, i, n, service);
  }
}
