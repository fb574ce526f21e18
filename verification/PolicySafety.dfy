/** Policies on raw observations, over every run of probes and evaluations: who is found behind
    or unhealthy, that a replica which stays behind is leased nothing that lag matters for, and
    that a sound node is never put out. */
module PolicySafety {
  import opened Options
  import opened Topology
  import opened Policy
  import opened Decisions
  import opened Routing
  import opened RoutingSafety
  import opened RoutingOutcome
  import Classifier

  ghost function Threshold(inst: Instance): int {
    if "threshold_ms" in inst.parameters then inst.parameters["threshold_ms"] else 100
  }

  /** A replica, believed to be one, whose lag is unknown, idle or outdated, or was last
      sampled above the threshold. */
  ghost predicate Behind(t: Topo, id: NodeId, now: int, threshold: int)
    requires id in t.nodes && AgesSet(t)
  {
    var ns := t.nodes[id];
    && ns.observedRole == Replica && !Aged(ns.lastProbeAt, now, t.roleMaxAgeMs)
    && (|| ns.lagState in {LagUnknown, LagIdle, Stale}
        || (ns.lagState == Fresh && Aged(ns.lastLagAt, now, t.lagMaxAgeMs))
        || (ns.lagState == Fresh && ns.lagMs.Some? && ns.lagMs.value > threshold))
  }

  /** Last reported up, recently, and not excluded. */
  ghost predicate Sound(t: Topo, id: NodeId, now: int)
    requires id in t.nodes && AgesSet(t)
  {
    var ns := t.nodes[id];
    ns.liveness == Up && !ns.permanentlyDown && !Aged(ns.lastProbeAt, now, t.livenessMaxAgeMs)
  }

  lemma {:induction false} LagRejectsExactly(inst: Instance, t: Topo, id: NodeId, now: int, saturated: bool)
    requires inst.template == LagFilter && id in t.nodes && AgesSet(t)
    ensures Judge(inst, View(t, id, now), saturated).reject <==> Behind(t, id, now, Threshold(inst))
  {
    BelievedExactly(t, id, now);
  }

  lemma {:induction false} HealthRejectsExactly(inst: Instance, t: Topo, id: NodeId, now: int, saturated: bool)
    requires inst.template == HealthFilter && id in t.nodes && AgesSet(t)
    ensures Judge(inst, View(t, id, now), saturated).reject <==> !Sound(t, id, now)
  {
    BelievedExactly(t, id, now);
  }

  // ---------- runs ----------

  lemma {:induction false} NextKeeps(s: System, e: Event, id: NodeId)
    requires Possible(s, e) && AgesSet(s.topo)
    ensures AgesSet(Next(s, e).topo) && Next(s, e).instances == s.instances && Next(s, e).states.Keys == s.states.Keys
    ensures id in s.topo.nodes ==> id in Next(s, e).topo.nodes
  {}

  /** What a policy says of a node at an evaluation. */
  ghost predicate Rejects(s: System, e: Event, name: string)
    requires Possible(s, e) && e.Evaluate? && name in s.instances && s.instances[name].template != OtherTemplate
  {
    Judge(s.instances[name], View(s.topo, e.id, e.now), e.saturated).reject
  }

  ghost predicate Known(s: System, name: string) {
    name in s.states && name in s.instances && s.instances[name].template != OtherTemplate
  }

  /** On the way out of one policy: dwelling since `since` at the latest. */
  ghost predicate Condemned(s: System, name: string, id: NodeId, since: int) {
    && Known(s, name) && id in s.states[name]
    && (s.states[name][id].state == Active || (s.states[name][id].state == Pending && s.states[name][id].enteredAt <= since))
  }

  ghost predicate Barred(s: System, name: string, id: NodeId) {
    Known(s, name) && id in s.states[name] && s.states[name][id].state == Active
  }

  lemma {:induction false} EvaluatedAt(s: System, e: Event, name: string, id: NodeId)
    requires Possible(s, e) && Known(s, name)
    ensures Known(Next(s, e), name)
    ensures Lookup(Next(s, e).states[name], id) ==
            if e.Evaluate? && e.id == id
            then Transition(Lookup(s.states[name], id), s.instances[name].timing,
                            Judge(s.instances[name], View(s.topo, id, e.now), e.saturated), e.now)
            else Lookup(s.states[name], id)
    ensures id in Next(s, e).states[name] <==> id in s.states[name] || (e.Evaluate? && e.id == id)
  {}

  lemma {:induction false} CondemnedStep(s: System, e: Event, name: string, id: NodeId, since: int)
    requires Possible(s, e) && Condemned(s, name, id, since)
    requires e.Evaluate? && e.id == id ==> Rejects(s, e, name)
    ensures Condemned(Next(s, e), name, id, since)
    ensures Barred(s, name, id) ==> Barred(Next(s, e), name, id)
    ensures e.Evaluate? && e.id == id && e.now - since >= s.instances[name].timing.Dwell() ==> Barred(Next(s, e), name, id)
  {
    EvaluatedAt(s, e, name, id);
  }

  lemma {:induction false} FirstReject(s: System, e: Event, name: string, id: NodeId)
    requires Possible(s, e) && Known(s, name) && Timed(s, name, id) && e.Evaluate? && e.id == id && Rejects(s, e, name)
    ensures Condemned(Next(s, e), name, id, e.now)
    ensures s.instances[name].timing.Dwell() == 0 ==> Barred(Next(s, e), name, id)
  {
    EvaluatedAt(s, e, name, id);
  }

  /** At every evaluation of the node in this run the policy rejects it. */
  ghost predicate RejectsThroughout(s: System, es: seq<Event>, name: string, id: NodeId)
    requires Run(s, es)
    decreases |es|
  {
    es == [] ||
    (&& Known(s, name)
     && (es[0].Evaluate? && es[0].id == id ==> Rejects(s, es[0], name))
     && RejectsThroughout(Next(s, es[0]), es[1..], name, id))
  }

  lemma {:induction false} CondemnedRun(s: System, es: seq<Event>, name: string, id: NodeId, since: int)
    requires Run(s, es) && Condemned(s, name, id, since) && RejectsThroughout(s, es, name, id)
    requires Barred(s, name, id) || DwellPassed(es, id, since, s.instances[name].timing.Dwell())
    ensures Barred(End(s, es), name, id)
    decreases |es|
  {
    if es != [] {
      var s1, dwell := Next(s, es[0]), s.instances[name].timing.Dwell();
      CondemnedStep(s, es[0], name, id, since);
      assert s1.instances == s.instances;
      if !Barred(s1, name, id) { LaterPassed(es, id, since, dwell); }
      CondemnedRun(s1, es[1..], name, id, since);
    }
  }

  lemma {:induction false} LaterPassed(es: seq<Event>, id: NodeId, since: int, dwell: nat)
    requires es != [] && DwellPassed(es, id, since, dwell)
    requires !(es[0].Evaluate? && es[0].id == id && es[0].now - since >= dwell)
    ensures DwellPassed(es[1..], id, since, dwell)
  {
    var i :| 0 <= i < |es| && es[i].Evaluate? && es[i].id == id && es[i].now - since >= dwell;
    assert es[1..][i - 1] == es[i];
  }

  /** Rejected at one evaluation, at one at least dwell later and at all in between: barred. */
  lemma {:induction false} RejectedForDwell(init: System, before: seq<Event>, es: seq<Event>, name: string, id: NodeId)
    requires NewSystem(init) && Run(init, before) && name in init.instances && Known(End(init, before), name)
    requires Run(End(init, before), es) && es != [] && es[0].Evaluate? && es[0].id == id
    requires RejectsThroughout(End(init, before), es, name, id)
    requires DwellPassed(es, id, es[0].now, init.instances[name].timing.Dwell())
    ensures Barred(End(End(init, before), es), name, id)
  {
    var s := End(init, before);
    TimedRun(init, before, name, id);
    FirstReject(s, es[0], name, id);
    var s1, dwell := Next(s, es[0]), s.instances[name].timing.Dwell();
    if dwell > 0 { LaterPassed(es, id, es[0].now, dwell); }
    assert s1.instances == s.instances;
    CondemnedRun(s1, es[1..], name, id, es[0].now);
  }

  // ---------- lag ----------

  ghost predicate BehindThroughout(s: System, es: seq<Event>, id: NodeId, threshold: int)
    requires Run(s, es) && AgesSet(s.topo)
    decreases |es|
  {
    es == [] ||
    (&& AgesSet(Next(s, es[0]).topo)
     && (es[0].Evaluate? && es[0].id == id ==> Behind(s.topo, id, es[0].now, threshold))
     && BehindThroughout(Next(s, es[0]), es[1..], id, threshold))
  }

  lemma {:induction false} BehindIsRejected(s: System, es: seq<Event>, name: string, id: NodeId)
    requires Run(s, es) && AgesSet(s.topo) && Known(s, name) && s.instances[name].template == LagFilter
    requires BehindThroughout(s, es, id, Threshold(s.instances[name]))
    ensures RejectsThroughout(s, es, name, id)
    decreases |es|
  {
    if es != [] {
      NextKeeps(s, es[0], id);
      if es[0].Evaluate? && es[0].id == id {
        LagRejectsExactly(s.instances[name], s.topo, id, es[0].now, es[0].saturated);
      }
      BehindIsRejected(Next(s, es[0]), es[1..], name, id);
    }
  }

  /** A replica found behind at one evaluation, at one at least dwell later and at all in
      between is leased nothing but compat writes, by any later decision on these states. */
  lemma {:induction false} LaggingReplicaNotLeased(
    init: System, before: seq<Event>, es: seq<Event>, lag: string, id: NodeId, snap: Snapshot, req: Request, rr: nat)
    requires NewSystem(init) && Run(init, before) && lag in init.instances && init.instances[lag].template == LagFilter
    requires var s := End(init, before); AgesSet(s.topo) && Run(s, es) && es != [] && es[0].Evaluate? && es[0].id == id
    requires BehindThroughout(End(init, before), es, id, Threshold(init.instances[lag]))
    requires DwellPassed(es, id, es[0].now, init.instances[lag].timing.Dwell())
    requires snap.Valid() && WellFormed(req) && req.cls != Some(Classifier.Write) && snap.names.lag == lag
    requires snap.engine == Some(End(End(init, before), es).states)
    ensures Decide(snap, req, rr) != Leased(id)
  {
    var s := End(init, before);
    TimedRun(init, before, lag, id);
    BehindIsRejected(s, es, lag, id);
    RejectedForDwell(init, before, es, lag, id);
    BarredNotLeased(snap, req, rr, lag, id);
  }

  lemma {:induction false} BarredNotLeased(snap: Snapshot, req: Request, rr: nat, lag: string, id: NodeId)
    requires snap.Valid() && WellFormed(req) && req.cls != Some(Classifier.Write) && snap.names.lag == lag
    requires snap.engine.Some? && lag in snap.engine.value && id in snap.engine.value[lag]
    requires snap.engine.value[lag][id].state == Active
    ensures Decide(snap, req, rr) != Leased(id)
  {
    if Decide(snap, req, rr) == Leased(id) {
      GrantIsEligible(snap, req, rr);
      EligibleExactly(snap, req, id);
    }
  }

  // ---------- sound nodes ----------

  /** At no evaluation of the node in this run the policy rejects it. */
  ghost predicate AcceptsThroughout(s: System, es: seq<Event>, name: string, id: NodeId)
    requires Run(s, es)
    decreases |es|
  {
    es == [] ||
    (&& Known(s, name)
     && (es[0].Evaluate? && es[0].id == id ==> !Rejects(s, es[0], name))
     && AcceptsThroughout(Next(s, es[0]), es[1..], name, id))
  }

  ghost predicate Untainted(s: System, name: string, id: NodeId) {
    Known(s, name) && Lookup(s.states[name], id).state == Clean && Lookup(s.states[name], id).lastCondition == ""
  }

  lemma {:induction false} UntaintedRun(s: System, es: seq<Event>, name: string, id: NodeId)
    requires Run(s, es) && Untainted(s, name, id) && AcceptsThroughout(s, es, name, id)
    ensures Untainted(End(s, es), name, id)
    decreases |es|
  {
    if es != [] {
      EvaluatedAt(s, es[0], name, id);
      UntaintedRun(Next(s, es[0]), es[1..], name, id);
    }
  }

  /** At every evaluation of the node it is not behind; a node not seen as replica never is. */
  ghost predicate NeverBehind(s: System, es: seq<Event>, id: NodeId, threshold: int)
    requires Run(s, es) && AgesSet(s.topo)
    decreases |es|
  {
    es == [] ||
    (&& AgesSet(Next(s, es[0]).topo)
     && (es[0].Evaluate? && es[0].id == id ==> !Behind(s.topo, id, es[0].now, threshold))
     && NeverBehind(Next(s, es[0]), es[1..], id, threshold))
  }

  ghost predicate AlwaysSound(s: System, es: seq<Event>, id: NodeId)
    requires Run(s, es) && AgesSet(s.topo)
    decreases |es|
  {
    es == [] ||
    (&& AgesSet(Next(s, es[0]).topo)
     && (es[0].Evaluate? && es[0].id == id ==> Sound(s.topo, id, es[0].now))
     && AlwaysSound(Next(s, es[0]), es[1..], id))
  }

  lemma {:induction false} NotBehindIsAccepted(s: System, es: seq<Event>, name: string, id: NodeId)
    requires Run(s, es) && AgesSet(s.topo) && Known(s, name) && s.instances[name].template == LagFilter
    requires NeverBehind(s, es, id, Threshold(s.instances[name]))
    ensures AcceptsThroughout(s, es, name, id)
    decreases |es|
  {
    if es != [] {
      NextKeeps(s, es[0], id);
      if es[0].Evaluate? && es[0].id == id {
        LagRejectsExactly(s.instances[name], s.topo, id, es[0].now, es[0].saturated);
      }
      NotBehindIsAccepted(Next(s, es[0]), es[1..], name, id);
    }
  }

  lemma {:induction false} SoundIsAccepted(s: System, es: seq<Event>, name: string, id: NodeId)
    requires Run(s, es) && AgesSet(s.topo) && Known(s, name) && s.instances[name].template == HealthFilter
    requires AlwaysSound(s, es, id)
    ensures AcceptsThroughout(s, es, name, id)
    decreases |es|
  {
    if es != [] {
      NextKeeps(s, es[0], id);
      if es[0].Evaluate? && es[0].id == id {
        HealthRejectsExactly(s.instances[name], s.topo, id, es[0].now, es[0].saturated);
      }
      SoundIsAccepted(Next(s, es[0]), es[1..], name, id);
    }
  }

  /** In every run from the start, a node that is never behind when evaluated, as a primary
      never is, is never put out by a lag policy. */
  lemma {:induction false} LagSparesOthers(init: System, es: seq<Event>, lag: string, id: NodeId)
    requires NewSystem(init) && Run(init, es) && AgesSet(init.topo)
    requires lag in init.instances && init.instances[lag].template == LagFilter
    requires NeverBehind(init, es, id, Threshold(init.instances[lag]))
    ensures PolicyState(End(init, es).states, lag, id) == (true, "")
  {
    NotBehindIsAccepted(init, es, lag, id);
    UntaintedRun(init, es, lag, id);
  }

  /** And one that is up when evaluated is never put out by a health policy. */
  lemma {:induction false} HealthSparesTheSound(init: System, es: seq<Event>, health: string, id: NodeId)
    requires NewSystem(init) && Run(init, es) && AgesSet(init.topo)
    requires health in init.instances && init.instances[health].template == HealthFilter && AlwaysSound(init, es, id)
    ensures PolicyState(End(init, es).states, health, id) == (true, "")
  {
    SoundIsAccepted(init, es, health, id);
    UntaintedRun(init, es, health, id);
  }
}
