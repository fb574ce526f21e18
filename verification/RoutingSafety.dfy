/** What a routing decision guarantees: the role of the chosen node, the write port's
    single primary, and permanent exclusion of foreign nodes. */
module RoutingSafety {
  import opened Options
  import opened Topology
  import opened Policy
  import opened Decisions
  import opened Routing
  import Classifier

  /** A request as the pipeline builds it. */
  ghost predicate WellFormed(req: Request) {
    if req.port == CompatPort then req.cls in {Some(Classifier.Read), Some(Classifier.Write)} else req.cls == None
  }

  /** The role a port and a class call for. */
  ghost function RequiredRole(req: Request): Role {
    if req.port == ReadPort || (req.cls == Some(Classifier.Read) && !req.windowActive) then Replica else Primary
  }

  lemma EligibleHasRole(snap: Snapshot, req: Request, id: NodeId)
    requires WellFormed(req) && req.port != InvalidPort && IsEligible(snap, req, id)
    ensures View(snap.topo, id, snap.now).observedRole == RequiredRole(req)
    ensures snap.engine.Some? ==> PolicyState(snap.engine.value, snap.names.health, id).0
  {
    var c, v := CandidateOf(snap, req, id), View(snap.topo, id, snap.now);
    assert c.reasons == [];
    assert RoleReasons(req.port, req.cls, req.windowActive, v.observedRole) == [];
    assert PolicyReasons(snap.engine, snap.names.health, id, "liveness:not_up") == [];
  }

  /** A granted node is an eligible candidate of that same decision with the role its port
      and class require; the fallback happens only for a compat read with nobody eligible,
      and goes to the single observed primary. */
  lemma GrantIsEligible(snap: Snapshot, req: Request, rr: nat)
    requires snap.Valid() && WellFormed(req)
    ensures match Decide(snap, req, rr)
            case Leased(n) =>
              IsEligible(snap, req, n) && View(snap.topo, n, snap.now).observedRole == RequiredRole(req)
            case Fallback(n) =>
              && req.cls == Some(Classifier.Read)
              && (forall id :: !IsEligible(snap, req, id))
              && PrimaryOf(snap.topo) == Some(n)
            case Rejected(_, _) => true
  {
    if req.port != InvalidPort && snap.order != [] {
      ResolveGrant(req, EligibleIds(snap, req, snap.order), PrimaryOf(snap.topo), snap.pool, rr);
      match Decide(snap, req, rr)
      case Leased(n) => EligibleHasRole(snap, req, n);
      case Fallback(n) => NobodyEligible(snap, req);
      case Rejected(_, _) =>
    }
  }

  lemma {:induction false} ResolveGrant(
    req: Request, eligible: seq<NodeId>, primary: Option<NodeId>, pool: map<NodeId, PoolOutcome>, rr: nat)
    ensures match Resolve(req, eligible, primary, pool, rr)
            case Leased(n) => n in eligible
            case Fallback(n) => eligible == [] && req.cls == Some(Classifier.Read) && primary == Some(n)
            case Rejected(_, _) => true
  {}

  lemma NobodyEligible(snap: Snapshot, req: Request)
    requires snap.Valid() && EligibleIds(snap, req, snap.order) == []
    ensures forall id :: !IsEligible(snap, req, id)
  {
    forall id ensures !IsEligible(snap, req, id) {
      assert id !in EligibleIds(snap, req, snap.order);
    }
  }

  lemma PrimaryOfMeaning(t: Topo, id: NodeId)
    ensures PrimaryOf(t) == Some(id) <==> WithRole(t, Primary) == {id}
  {
    if WithRole(t, Primary) == {id} && PrimaryOf(t).Some? {
      var p := PrimaryOf(t).value;
      assert p in WithRole(t, Primary);
    }
  }

  /** On the write port a lease is granted only while exactly one node that is not excluded
      is observed as primary. It goes to that node exactly when that node is itself eligible;
      otherwise to the lowest eligible identifier, which is then an excluded node. */
  lemma WritePortTarget(snap: Snapshot, req: Request, rr: nat)
    requires snap.Valid() && WellFormed(req) && req.port == WritePort
    ensures Decide(snap, req, rr).Leased? ==>
              var n, p := Decide(snap, req, rr).node, PrimaryOf(snap.topo);
              && p.Some?
              && WithRole(snap.topo, Primary) == {p.value}
              && (n == p.value <==> IsEligible(snap, req, p.value))
              && (n != p.value ==> Excluded(snap.topo, n) && IsEligible(snap, req, n))
  {
    if Decide(snap, req, rr).Leased? {
      var n, p := Decide(snap, req, rr).node, PrimaryOf(snap.topo).value;
      PrimaryOfMeaning(snap.topo, p);
      GrantIsEligible(snap, req, rr);
      assert !Excluded(snap.topo, n) ==> n in WithRole(snap.topo, Primary);
    }
  }

  /** So the lowest-identifier fallback is dead as long as no excluded node is eligible. */
  lemma WritePortSinglePrimary(snap: Snapshot, req: Request, rr: nat)
    requires snap.Valid() && WellFormed(req) && req.port == WritePort
    requires forall id :: Excluded(snap.topo, id) ==> !IsEligible(snap, req, id)
    ensures Decide(snap, req, rr).Leased? ==> WithRole(snap.topo, Primary) == {Decide(snap, req, rr).node}
  {
    WritePortTarget(snap, req, rr);
  }

  /** Two nodes of a fresh cluster are seen as primary; the foreign one reports another system
      identifier. */
  ghost function Probes(foreign: NodeId, actual: NodeId, sid: string, other: string, t: int): seq<Observation> {
    [SawSystemId(actual, sid), SawRole(actual, Primary), SawLiveness(actual, Up, t),
     SawRole(foreign, Primary), SawSystemId(foreign, other)]
  }

  ghost function FreshCluster(ids: set<NodeId>): Topo {
    Topo(map id | id in ids :: Unprobed(), "", 2000, 5000, 2000)
  }

  ghost function NoStates(): States {
    map name | name in DEFAULTS :: map[]
  }

  /** Then both are evaluated under the default policies, the real primary with a full pool. */
  ghost function TwoPrimaries(foreign: NodeId, actual: NodeId, sid: string, other: string, t: int): Snapshot
    requires foreign in ObserveAll(FreshCluster({foreign, actual}), Probes(foreign, actual, sid, other, t)).nodes
    requires actual in ObserveAll(FreshCluster({foreign, actual}), Probes(foreign, actual, sid, other, t)).nodes
  {
    var topo := ObserveAll(FreshCluster({foreign, actual}), Probes(foreign, actual, sid, other, t));
    var first := Evaluated(NoStates(), DEFAULTS, View(topo, actual, t), true, t);
    Snapshot(topo, Some(Evaluated(first, DEFAULTS, View(topo, foreign, t), false, t)),
             PolicyNames(DEFAULT_HEALTH, DEFAULT_LAG, DEFAULT_SATURATION),
             [foreign, actual], t, map[foreign := Connected, actual := Connected])
  }

  lemma {:induction false} ObserveFive(t: Topo, a: Observation, b: Observation, c: Observation, d: Observation, e: Observation)
    ensures ObserveAll(t, [a, b, c, d, e]) == Observe(Observe(Observe(Observe(Observe(t, a), b), c), d), e)
  {
    assert [a, b, c, d, e][1..] == [b, c, d, e] && [b, c, d, e][1..] == [c, d, e];
    assert [c, d, e][1..] == [d, e] && [d, e][1..] == [e] && [e][1..] == [];
    assert ObserveAll(Observe(Observe(t, a), b), [c, d, e]) == Observe(Observe(Observe(Observe(Observe(t, a), b), c), d), e) by {
      assert ObserveAll(Observe(Observe(Observe(Observe(t, a), b), c), d), [e]) == Observe(Observe(Observe(Observe(Observe(t, a), b), c), d), e);
    }
  }

  lemma {:induction false} ProbedTopology(foreign: NodeId, actual: NodeId, sid: string, other: string, t: int)
    requires foreign != actual && sid != "" && other != sid
    ensures var topo := ObserveAll(FreshCluster({foreign, actual}), Probes(foreign, actual, sid, other, t));
            && topo.nodes.Keys == {foreign, actual} && topo.clusterId == sid && topo.roleMaxAgeMs == 5000
            && topo.nodes[actual] == Unprobed().(systemId := sid, observedRole := Primary, liveness := Up, lastProbeAt := Some(t))
            && topo.nodes[foreign] == Unprobed().(observedRole := Primary, permanentlyDown := true, liveness := Down)
            && topo.livenessMaxAgeMs == 2000
  {
    var ps := Probes(foreign, actual, sid, other, t);
    ObserveFive(FreshCluster({foreign, actual}), ps[0], ps[1], ps[2], ps[3], ps[4]);
  }

  lemma {:induction false} EachEvaluatedOnce(name: string, v: NodeView, w: NodeView, t: int)
    requires name in DEFAULTS && v.id != w.id
    ensures DEFAULTS[name].template != OtherTemplate
    ensures var states := Evaluated(Evaluated(NoStates(), DEFAULTS, v, true, t), DEFAULTS, w, false, t);
            var timing := DEFAULTS[name].timing;
            && name in states
            && states[name] == map[v.id := Transition(FRESH, timing, Judge(DEFAULTS[name], v, true), t),
                                   w.id := Transition(FRESH, timing, Judge(DEFAULTS[name], w, false), t)]
  {}

  lemma {:induction false} EvaluatedStates(v: NodeView, w: NodeView, t: int)
    requires v.id != w.id && v.observedRole == Primary && w.observedRole == Primary
    ensures var states := Evaluated(Evaluated(NoStates(), DEFAULTS, v, true, t), DEFAULTS, w, false, t);
            && PolicyState(states, DEFAULT_HEALTH, w.id).0 && PolicyState(states, DEFAULT_LAG, w.id).0
            && PolicyState(states, DEFAULT_SATURATION, w.id).0
            && !PolicyState(states, DEFAULT_SATURATION, v.id).0
  {
    EachEvaluatedOnce(DEFAULT_HEALTH, v, w, t);
    EachEvaluatedOnce(DEFAULT_LAG, v, w, t);
    EachEvaluatedOnce(DEFAULT_SATURATION, v, w, t);
    assert DEFAULTS[DEFAULT_HEALTH].timing.Dwell() > 0 && DEFAULTS[DEFAULT_SATURATION].timing.Dwell() == 0;
  }

  lemma {:induction false} TwoPrimariesSeen(foreign: NodeId, actual: NodeId, sid: string, other: string, t: int)
    requires foreign != actual && sid != "" && other != sid
    ensures var topo := ObserveAll(FreshCluster({foreign, actual}), Probes(foreign, actual, sid, other, t));
            && topo.nodes.Keys == {foreign, actual} && PrimaryOf(topo) == Some(actual) && Excluded(topo, foreign)
            && TwoPrimaries(foreign, actual, sid, other, t).Valid()
  {
    ProbedTopology(foreign, actual, sid, other, t);
    var snap := TwoPrimaries(foreign, actual, sid, other, t);
    assert foreign in snap.order && actual in snap.order;
    assert WithRole(snap.topo, Primary) == {actual};
    PrimaryOfMeaning(snap.topo, actual);
  }

  lemma {:induction false} TwoPrimariesEligible(
    foreign: NodeId, actual: NodeId, sid: string, other: string, t: int, req: Request)
    requires foreign != actual && sid != "" && other != sid && req == Request(WritePort, None, false)
    requires ObserveAll(FreshCluster({foreign, actual}), Probes(foreign, actual, sid, other, t)).nodes.Keys == {foreign, actual}
    ensures var snap := TwoPrimaries(foreign, actual, sid, other, t);
            IsEligible(snap, req, foreign) && !IsEligible(snap, req, actual)
  {
    ProbedTopology(foreign, actual, sid, other, t);
    var snap := TwoPrimaries(foreign, actual, sid, other, t);
    EvaluatedStates(View(snap.topo, actual, t), View(snap.topo, foreign, t), t);
    assert View(snap.topo, foreign, t).systemId == "" && View(snap.topo, foreign, t).observedRole == Primary;
    assert PolicyReasons(snap.engine, DEFAULT_SATURATION, actual, "pool:saturated") != [];
  }

  /** The premise is needed, and what it excludes happens: after these probes and evaluations,
      the foreign node, not dwelt on yet, takes the write lease of the full primary. */
  lemma {:induction false} WritePortFallbackIsLive(
    foreign: NodeId, actual: NodeId, sid: string, other: string, t: int, rr: nat)
    requires foreign != actual && sid != "" && other != sid
    ensures var topo := ObserveAll(FreshCluster({foreign, actual}), Probes(foreign, actual, sid, other, t));
            && topo.nodes.Keys == {foreign, actual} && Excluded(topo, foreign) && PrimaryOf(topo) == Some(actual)
            && var snap, req := TwoPrimaries(foreign, actual, sid, other, t), Request(WritePort, None, false);
               snap.Valid() && WellFormed(req) && Decide(snap, req, rr) == Leased(foreign)
  {
    TwoPrimariesSeen(foreign, actual, sid, other, t);
    var snap, req := TwoPrimaries(foreign, actual, sid, other, t), Request(WritePort, None, false);
    TwoPrimariesEligible(foreign, actual, sid, other, t, req);
    OnlyChoice(snap, req, rr, foreign, actual);
  }

  lemma {:induction false} OnlyChoice(snap: Snapshot, req: Request, rr: nat, foreign: NodeId, actual: NodeId)
    requires req == Request(WritePort, None, false) && snap.order == [foreign, actual] && PrimaryOf(snap.topo) == Some(actual)
    requires IsEligible(snap, req, foreign) && !IsEligible(snap, req, actual)
    requires snap.pool == map[foreign := Connected, actual := Connected]
    ensures Decide(snap, req, rr) == Leased(foreign)
  {
    var eligible := EligibleIds(snap, req, snap.order);
    assert foreign in snap.order;
    assert foreign in eligible && actual !in eligible;
    assert forall id :: id in eligible ==> id in snap.order && id == foreign;
  }

  // ---------- the compat port ----------

  /** A compat write is leased to a node seen as primary or not at all; while the post-write
      window is active no compat lease goes to a node seen as replica, by any path. */
  lemma CompatLease(snap: Snapshot, req: Request, rr: nat)
    requires snap.Valid() && WellFormed(req) && req.port == CompatPort
    ensures var l := Acquire(snap, req, rr);
            && (l.Lease? && req.cls == Some(Classifier.Write) ==> l.role == Primary)
            && (l.Lease? && req.windowActive ==> l.role != Replica)
  {
    GrantIsEligible(snap, req, rr);
    if Decide(snap, req, rr).Fallback? {
      var n := Decide(snap, req, rr).node;
      PrimaryOfMeaning(snap.topo, n);
      assert n in WithRole(snap.topo, Primary);
    }
  }

  // ---------- permanent exclusion ----------

  /** Whatever the probes report, the router's own identifier test rejects nobody: the
      other filters alone decide eligibility. */
  lemma IdentifierTestNeverFires(start: Topo, os: seq<Observation>, snap: Snapshot, req: Request, id: NodeId)
    requires IdsAgree(start) && snap.topo == ObserveAll(start, os) && id in snap.topo.nodes
    ensures IsEligible(snap, req, id) <==>
            && RoleReasons(req.port, req.cls, req.windowActive, View(snap.topo, id, snap.now).observedRole) == []
            && PolicyReasons(snap.engine, snap.names.health, id, "liveness:not_up") == []
            && (req.cls == Some(Classifier.Write) || PolicyReasons(snap.engine, snap.names.lag, id, "lag:policy_active") == [])
            && PolicyReasons(snap.engine, snap.names.saturation, id, "pool:saturated") == []
  {
    IdsAgreeForever(start, os);
  }

  /** The running system: topology and policy states, with the time of the last evaluation. */
  datatype System = System(topo: Topo, states: States, instances: map<string, Instance>, clock: int)

  datatype Event = Probe(o: Observation) | Evaluate(id: NodeId, saturated: bool, now: int)

  ghost predicate Possible(s: System, e: Event) {
    e.Evaluate? ==> e.id in s.topo.nodes && s.clock <= e.now
  }

  ghost function Next(s: System, e: Event): System
    requires Possible(s, e)
  {
    match e
    case Probe(o) => s.(topo := Observe(s.topo, o))
    case Evaluate(id, saturated, now) =>
      s.(states := Evaluated(s.states, s.instances, View(s.topo, id, now), saturated, now), clock := now)
  }

  /** The health policy's state for a node, once it has been evaluated. */
  ghost predicate Judged(s: System, health: string, id: NodeId) {
    && health in s.states && health in s.instances && s.instances[health].template == HealthFilter
    && id in s.states[health]
  }

  ghost predicate Timed(s: System, health: string, id: NodeId) {
    health in s.states && id in s.states[health] && s.states[health][id].state == Pending ==>
      s.states[health][id].enteredAt <= s.clock
  }

  /** On the way out: excluded, and dwelling since `since` at the latest. */
  ghost predicate Dwelling(s: System, health: string, id: NodeId, since: int) {
    && Excluded(s.topo, id) && Judged(s, health, id)
    && var p := s.states[health][id];
       p.state == Active || (p.state == Pending && p.enteredAt <= since)
  }

  /** Out: no policy evaluation can bring the node back. */
  ghost predicate Out(s: System, health: string, id: NodeId) {
    Excluded(s.topo, id) && Judged(s, health, id) && s.states[health][id].state == Active
  }

  lemma ExcludedStep(s: System, e: Event, id: NodeId)
    requires Possible(s, e) && Excluded(s.topo, id)
    ensures Excluded(Next(s, e).topo, id)
  {
    if e.Probe? { ExclusionIsMismatch(s.topo, e.o, id); }
  }

  lemma TimedStep(s: System, e: Event, health: string, id: NodeId)
    requires Possible(s, e) && Timed(s, health, id)
    ensures Timed(Next(s, e), health, id)
  {}

  /** The first evaluation after the mismatch starts the dwell at the latest. */
  lemma FirstEvaluationDwells(s: System, e: Event, health: string, id: NodeId)
    requires Possible(s, e) && e.Evaluate? && e.id == id && Excluded(s.topo, id) && Timed(s, health, id)
    requires health in s.states && health in s.instances && s.instances[health].template == HealthFilter
    ensures Dwelling(Next(s, e), health, id, e.now)
  {}

  lemma DwellingStep(s: System, e: Event, health: string, id: NodeId, since: int)
    requires Possible(s, e) && Dwelling(s, health, id, since)
    ensures Dwelling(Next(s, e), health, id, since)
    ensures e.Evaluate? && e.id == id && e.now - since >= s.instances[health].timing.Dwell() ==> Out(Next(s, e), health, id)
    ensures Out(s, health, id) ==> Out(Next(s, e), health, id)
  {
    ExcludedStep(s, e, id);
  }

  ghost predicate Run(s: System, es: seq<Event>)
    decreases |es|
  {
    es == [] || (Possible(s, es[0]) && Run(Next(s, es[0]), es[1..]))
  }

  ghost function End(s: System, es: seq<Event>): System
    requires Run(s, es)
    decreases |es|
  {
    if es == [] then s else End(Next(s, es[0]), es[1..])
  }

  /** Some evaluation of the node in this run comes at least dwell after `since`. */
  ghost predicate DwellPassed(es: seq<Event>, id: NodeId, since: int, dwell: nat) {
    exists i :: 0 <= i < |es| && es[i].Evaluate? && es[i].id == id && es[i].now - since >= dwell
  }

  lemma {:induction false} DwellingRun(s: System, es: seq<Event>, health: string, id: NodeId, since: int)
    requires Run(s, es) && Dwelling(s, health, id, since)
    requires Out(s, health, id) || DwellPassed(es, id, since, s.instances[health].timing.Dwell())
    ensures Out(End(s, es), health, id)
    decreases |es|
  {
    if es != [] {
      var s1 := Next(s, es[0]);
      DwellingStep(s, es[0], health, id, since);
      var dwell := s.instances[health].timing.Dwell();
      if !Out(s1, health, id) {
        var i :| 0 <= i < |es| && es[i].Evaluate? && es[i].id == id && es[i].now - since >= dwell;
        assert es[1..][i - 1] == es[i];
        assert DwellPassed(es[1..], id, since, dwell);
      }
      DwellingRun(s1, es[1..], health, id, since);
    }
  }

  ghost predicate NewSystem(s: System) {
    s.states.Keys == s.instances.Keys && forall name :: name in s.states ==> s.states[name] == map[]
  }

  lemma {:induction false} TimedRun(s: System, es: seq<Event>, health: string, id: NodeId)
    requires Run(s, es) && Timed(s, health, id)
    ensures Timed(End(s, es), health, id)
    ensures End(s, es).instances == s.instances && End(s, es).states.Keys == s.states.Keys
    decreases |es|
  {
    if es != [] {
      TimedStep(s, es[0], health, id);
      TimedRun(Next(s, es[0]), es[1..], health, id);
    }
  }

  /** After any run, an excluded node that was evaluated once at `first.now`, and again at least dwell later,
      is never again chosen on any port, whatever else happened meanwhile or happens
      afterwards, for any pool state, iteration order and round-robin position. */
  lemma {:induction false} ForeignNodeNeverLeased(
    init: System, before: seq<Event>, s: System, first: Event, es: seq<Event>, health: string, id: NodeId,
    snap: Snapshot, req: Request, rr: nat)
    requires NewSystem(init) && health in init.instances && init.instances[health].template == HealthFilter
    requires Run(init, before) && s == End(init, before) && Excluded(s.topo, id)
    requires Possible(s, first) && first.Evaluate? && first.id == id
    requires Run(Next(s, first), es)
    requires DwellPassed([first] + es, id, first.now, init.instances[health].timing.Dwell())
    requires snap.Valid() && WellFormed(req) && snap.names.health == health
    requires snap.topo == End(Next(s, first), es).topo && snap.engine == Some(End(Next(s, first), es).states)
    ensures Decide(snap, req, rr).Rejected? || Decide(snap, req, rr).node != id
  {
    TimedRun(init, before, health, id);
    FirstEvaluationDwells(s, first, health, id);
    DwellPassedNext(first, es, id, init.instances[health].timing.Dwell());
    FirstDecides(s, first, health, id);
    DwellingRun(Next(s, first), es, health, id, first.now);
    OutIsNeverLeased(End(Next(s, first), es), snap, req, rr, health, id);
  }

  /** With no dwell the first evaluation already takes the node out. */
  lemma {:induction false} FirstDecides(s: System, first: Event, health: string, id: NodeId)
    requires Possible(s, first) && first.Evaluate? && first.id == id && Excluded(s.topo, id) && Timed(s, health, id)
    requires health in s.states && health in s.instances && s.instances[health].template == HealthFilter
    ensures s.instances[health].timing.Dwell() == 0 ==> Out(Next(s, first), health, id)
  {}

  lemma {:induction false} DwellPassedNext(first: Event, es: seq<Event>, id: NodeId, dwell: nat)
    requires first.Evaluate? && DwellPassed([first] + es, id, first.now, dwell)
    ensures dwell == 0 || DwellPassed(es, id, first.now, dwell)
  {
    var all := [first] + es;
    var i :| 0 <= i < |all| && all[i].Evaluate? && all[i].id == id && all[i].now - first.now >= dwell;
    assert i > 0 ==> es[i - 1] == all[i];
  }

  lemma {:induction false} OutIsNeverLeased(s: System, snap: Snapshot, req: Request, rr: nat, health: string, id: NodeId)
    requires Out(s, health, id) && snap.Valid() && WellFormed(req) && snap.names.health == health
    requires snap.topo == s.topo && snap.engine == Some(s.states)
    ensures Decide(snap, req, rr).Rejected? || Decide(snap, req, rr).node != id
  {
    GrantIsEligible(snap, req, rr);
    match Decide(snap, req, rr)
    case Leased(n) => EligibleHasRole(snap, req, n);
    case Fallback(n) =>
      PrimaryOfMeaning(snap.topo, n);
      assert n in WithRole(snap.topo, Primary);
    case Rejected(_, _) =>
  }
}
