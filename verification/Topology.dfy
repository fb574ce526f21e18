/** The cluster topology: what the probes reported about every node, and the views the
    router reads. Times are nanoseconds. */
module Topology {
  import opened Options

  type NodeId = string

  datatype Role = RoleUnknown | Primary | Replica
  datatype Liveness = LivenessUnknown | Up | Degraded | Down
  datatype LagState = LagUnknown | Fresh | LagIdle | Stale | NotApplicable

  datatype NodeState = NodeState(
    observedRole: Role, liveness: Liveness, systemId: string, lastProbeAt: Option<int>,
    permanentlyDown: bool, lagMs: Option<int>, lagState: LagState, lastLagAt: Option<int>)

  datatype Topo = Topo(
    nodes: map<NodeId, NodeState>, clusterId: string,
    livenessMaxAgeMs: int, roleMaxAgeMs: int, lagMaxAgeMs: int)

  datatype NodeView = NodeView(
    id: NodeId, observedRole: Role, liveness: Liveness, systemId: string, lagMs: Option<int>, lagState: LagState)

  const NANOS_PER_MS := 1_000_000

  /** `Duration.Milliseconds`, which truncates toward zero. */
  function Milliseconds(d: int): int {
    if d >= 0 then d / NANOS_PER_MS else -((-d) / NANOS_PER_MS)
  }

  predicate OlderThan(at: Option<int>, now: int, maxAgeMs: int) {
    at.Some? && Milliseconds(now - at.value) > maxAgeMs
  }

  /** `nodeView`: an observation older than its maximal age is not believed. */
  function View(t: Topo, id: NodeId, now: int): (v: NodeView)
    requires id in t.nodes
    ensures v.id == id
    ensures v.observedRole in {RoleUnknown, t.nodes[id].observedRole}
    ensures t.nodes[id].permanentlyDown ==> v.liveness in {Down, LivenessUnknown}
  {
    var ns := t.nodes[id];
    var liveness := if ns.permanentlyDown then Down else ns.liveness;
    NodeView(
      id,
      if OlderThan(ns.lastProbeAt, now, t.roleMaxAgeMs) then RoleUnknown else ns.observedRole,
      if OlderThan(ns.lastProbeAt, now, t.livenessMaxAgeMs) then LivenessUnknown else liveness,
      ns.systemId,
      ns.lagMs,
      if ns.lagState == Fresh && OlderThan(ns.lastLagAt, now, t.lagMaxAgeMs) then Stale else ns.lagState)
  }

  /** The nodes with a raw observed role that were not permanently excluded. */
  ghost function WithRole(t: Topo, role: Role): set<NodeId> {
    set id | id in t.nodes && !t.nodes[id].permanentlyDown && t.nodes[id].observedRole == role
  }

  /** The primary, when exactly one is observed. */
  ghost function PrimaryOf(t: Topo): Option<NodeId> {
    if exists id :: WithRole(t, Primary) == {id} then
      var id :| WithRole(t, Primary) == {id};
      Some(id)
    else None
  }

  // ---------- observations ----------

  datatype Observation =
    | SawLiveness(id: NodeId, liveness: Liveness, at: int)
    | SawRole(id: NodeId, role: Role)
    | SawSystemId(id: NodeId, sid: string)
    | SawLag(id: NodeId, state: LagState, lagMs: Option<int>, at: int)

  predicate Mismatches(t: Topo, id: NodeId, sid: string) {
    id in t.nodes && t.clusterId != "" && sid != t.clusterId
  }

  function Observe(t: Topo, o: Observation): Topo {
    if o.id !in t.nodes then t
    else
      var ns := t.nodes[o.id];
      match o
      case SawLiveness(id, l, at) =>
        if ns.permanentlyDown then
          if l == Up then t else t.(nodes := t.nodes[id := ns.(lastProbeAt := Some(at))])
        else t.(nodes := t.nodes[id := ns.(liveness := l, lastProbeAt := Some(at))])
      case SawRole(id, role) =>
        t.(nodes := t.nodes[id := ns.(observedRole := role)])
      case SawSystemId(id, sid) =>
        if Mismatches(t, id, sid) then
          t.(nodes := t.nodes[id := ns.(permanentlyDown := true, liveness := Down)])
        else t.(clusterId := sid, nodes := t.nodes[id := ns.(systemId := sid)])
      case SawLag(id, state, lagMs, at) =>
        t.(nodes := t.nodes[id := ns.(lagMs := lagMs, lagState := state, lastLagAt := Some(at))])
  }

  function ObserveAll(t: Topo, os: seq<Observation>): Topo
    decreases |os|
  {
    if os == [] then t else ObserveAll(Observe(t, os[0]), os[1..])
  }

  class Cluster {
    var nodes: map<NodeId, NodeState>
    var clusterId: string
    const livenessMaxAgeMs: int
    const roleMaxAgeMs: int
    const lagMaxAgeMs: int

    function State(): Topo
      reads this
    {
      Topo(nodes, clusterId, livenessMaxAgeMs, roleMaxAgeMs, lagMaxAgeMs)
    }

    constructor (ids: set<NodeId>, livenessMaxAgeMs: int, roleMaxAgeMs: int, lagMaxAgeMs: int)
      ensures State() == Topo(map id | id in ids :: Unprobed(), "", livenessMaxAgeMs, roleMaxAgeMs, lagMaxAgeMs)
    {
      nodes := map id | id in ids :: Unprobed();
      clusterId := "";
      this.livenessMaxAgeMs, this.roleMaxAgeMs, this.lagMaxAgeMs := livenessMaxAgeMs, roleMaxAgeMs, lagMaxAgeMs;
    }

    method UpdateLiveness(id: NodeId, l: Liveness, now: int)
      modifies this
      ensures State() == Observe(old(State()), SawLiveness(id, l, now))
    {
      if id !in nodes { return; }
      var ns := nodes[id];
      if ns.permanentlyDown {
        if l == Up { return; }
        nodes := nodes[id := ns.(lastProbeAt := Some(now))];
        return;
      }
      nodes := nodes[id := ns.(liveness := l, lastProbeAt := Some(now))];
    }

    method UpdateObservedRole(id: NodeId, role: Role)
      modifies this
      ensures State() == Observe(old(State()), SawRole(id, role))
    {
      if id !in nodes { return; }
      nodes := nodes[id := nodes[id].(observedRole := role)];
    }

    method UpdateSystemId(id: NodeId, sid: string) returns (ok: bool)
      modifies this
      ensures State() == Observe(old(State()), SawSystemId(id, sid))
      ensures ok <==> id in old(nodes) && !Mismatches(old(State()), id, sid)
    {
      if id !in nodes { return false; }
      var firstTime := clusterId == "";
      if firstTime { clusterId := sid; }
      if firstTime {
        nodes := nodes[id := nodes[id].(systemId := clusterId)];
        return true;
      }
      if sid != clusterId {
        nodes := nodes[id := nodes[id].(permanentlyDown := true, liveness := Down)];
        return false;
      }
      nodes := nodes[id := nodes[id].(systemId := sid)];
      ok := true;
    }

    method UpdateLag(id: NodeId, state: LagState, lagMs: Option<int>, sampledAt: int)
      modifies this
      ensures State() == Observe(old(State()), SawLag(id, state, lagMs, sampledAt))
    {
      if id !in nodes { return; }
      nodes := nodes[id := nodes[id].(lagMs := lagMs, lagState := state, lastLagAt := Some(sampledAt))];
    }

    /** Map iteration has no order: the nodes are visited in any order. */
    method FindPrimary(now: int) returns (primary: Option<NodeView>)
      ensures primary.Some? <==> PrimaryOf(State()).Some?
      ensures primary.Some? ==>
                PrimaryOf(State()).value in nodes && primary.value == View(State(), PrimaryOf(State()).value, now)
    {
      var rest := nodes.Keys;
      var found: Option<NodeId> := None;
      ghost var all := WithRole(State(), Primary);
      while rest != {}
        invariant rest <= nodes.Keys
        invariant all - rest == if found.Some? then {found.value} else {}
        decreases rest
      {
        var id :| id in rest;
        rest := rest - {id};
        if !nodes[id].permanentlyDown && nodes[id].observedRole == Primary {
          if found.Some? {
            assert id in all && found.value in all && id != found.value;
            return None;
          }
          found := Some(id);
        }
      }
      assert all - rest == all;
      if found.None? { return None; }
      assert all == {found.value};
      primary := Some(View(State(), found.value, now));
    }

    method Replicas(now: int) returns (views: seq<NodeView>)
      ensures Shows(State(), WithRole(State(), Replica), views, now)
    {
      var rest, topo := nodes.Keys, State();
      views := [];
      ghost var all := WithRole(topo, Replica);
      while rest != {}
        invariant rest <= topo.nodes.Keys && Shows(topo, all - rest, views, now)
        decreases rest
      {
        var id :| id in rest;
        Visited(all, rest, id);
        if !topo.nodes[id].permanentlyDown && topo.nodes[id].observedRole == Replica {
          ShowsOneMore(topo, all - rest, views, now, id);
          views := views + [View(topo, id, now)];
        }
        rest := rest - {id};
      }
      assert all - rest == all;
    }
  }

  /** The list holds the view of each of these nodes, and nothing else, as many entries as
      nodes. */
  ghost predicate Shows(t: Topo, ids: set<NodeId>, views: seq<NodeView>, now: int) {
    && ids <= t.nodes.Keys && |views| == |ids|
    && forall v :: v in views <==> exists id :: id in ids && v == View(t, id, now)
  }

  lemma {:induction false} Visited(all: set<NodeId>, rest: set<NodeId>, id: NodeId)
    requires id in rest
    ensures all - (rest - {id}) == if id in all then (all - rest) + {id} else all - rest
  {}

  lemma {:induction false} ShowsOneMore(t: Topo, ids: set<NodeId>, views: seq<NodeView>, now: int, id: NodeId)
    requires Shows(t, ids, views, now) && id in t.nodes && id !in ids
    ensures Shows(t, ids + {id}, views + [View(t, id, now)], now)
  {
    var more := views + [View(t, id, now)];
    assert id in ids + {id};
    forall v | v in more
      ensures exists k :: k in ids + {id} && v == View(t, k, now)
    {
      if v in views {
        var k :| k in ids && v == View(t, k, now);
        assert k in ids + {id};
      }
    }
  }

  function Unprobed(): NodeState {
    NodeState(RoleUnknown, LivenessUnknown, "", None, false, None, NotApplicable, None)
  }

  // ---------- permanent exclusion ----------

  ghost predicate Excluded(t: Topo, id: NodeId) {
    id in t.nodes && t.nodes[id].permanentlyDown
  }

  /** Exclusion starts exactly at a system-identifier mismatch. */
  lemma ExclusionIsMismatch(t: Topo, o: Observation, id: NodeId)
    ensures Excluded(Observe(t, o), id) <==>
            Excluded(t, id) || (o.SawSystemId? && o.id == id && Mismatches(t, id, o.sid))
  {}

  /** An excluded node stays excluded through every history, is never seen up or degraded,
      and is neither the primary nor a replica. */
  lemma {:induction false} ExcludedForever(t: Topo, os: seq<Observation>, id: NodeId)
    requires Excluded(t, id)
    ensures var t' := ObserveAll(t, os);
            && Excluded(t', id)
            && (forall now :: View(t', id, now).liveness in {Down, LivenessUnknown})
            && PrimaryOf(t') != Some(id)
            && (forall role :: id !in WithRole(t', role))
    decreases |os|
  {
    if os != [] {
      ExclusionIsMismatch(t, os[0], id);
      ExcludedForever(Observe(t, os[0]), os[1..], id);
    }
  }

  lemma {:induction false} ClusterIdNeverChanges(t: Topo, os: seq<Observation>)
    requires t.clusterId != ""
    ensures ObserveAll(t, os).clusterId == t.clusterId
    decreases |os|
  {
    if os != [] { ClusterIdNeverChanges(Observe(t, os[0]), os[1..]); }
  }

  ghost predicate IdsAgree(t: Topo) {
    forall id :: id in t.nodes ==> t.nodes[id].systemId in {"", t.clusterId}
  }

  /** A node never carries a foreign identifier, so the router's own identifier test
      never rejects anyone. */
  lemma {:induction false} IdsAgreeForever(t: Topo, os: seq<Observation>)
    requires IdsAgree(t)
    ensures IdsAgree(ObserveAll(t, os))
    decreases |os|
  {
    if os != [] { IdsAgreeForever(Observe(t, os[0]), os[1..]); }
  }

  // ---------- what is remembered and what is believed ----------

  /** At least a whole millisecond older than the maximal age. */
  ghost predicate Aged(at: Option<int>, now: int, maxAgeMs: nat) {
    at.Some? && now - at.value >= (maxAgeMs + 1) * NANOS_PER_MS
  }

  lemma {:induction false} AgedExactly(at: Option<int>, now: int, maxAgeMs: nat)
    ensures OlderThan(at, now, maxAgeMs) <==> Aged(at, now, maxAgeMs)
  {}

  ghost predicate AgesSet(t: Topo) {
    t.livenessMaxAgeMs >= 0 && t.roleMaxAgeMs >= 0 && t.lagMaxAgeMs >= 0
  }

  /** When an observation stops being believed: role and liveness age with the last probe, a
      fresh lag with its sample, and an excluded node is never believed up. */
  lemma {:induction false} BelievedExactly(t: Topo, id: NodeId, now: int)
    requires id in t.nodes && AgesSet(t)
    ensures var ns, v := t.nodes[id], View(t, id, now);
            && v.observedRole == (if Aged(ns.lastProbeAt, now, t.roleMaxAgeMs) then RoleUnknown else ns.observedRole)
            && v.liveness == (if Aged(ns.lastProbeAt, now, t.livenessMaxAgeMs) then LivenessUnknown
                              else if ns.permanentlyDown then Down else ns.liveness)
            && (v.lagState == Fresh <==> ns.lagState == Fresh && !Aged(ns.lastLagAt, now, t.lagMaxAgeMs))
            && v.lagMs == ns.lagMs && (v.lagState != ns.lagState ==> v.lagState == Stale)
  {
    AgedExactly(t.nodes[id].lastProbeAt, now, t.roleMaxAgeMs);
    AgedExactly(t.nodes[id].lastProbeAt, now, t.livenessMaxAgeMs);
    AgedExactly(t.nodes[id].lastLagAt, now, t.lagMaxAgeMs);
  }

  ghost function LastRole(os: seq<Observation>, id: NodeId): Role {
    if os == [] then RoleUnknown
    else
      var o := os[|os| - 1];
      if o.SawRole? && o.id == id then o.role else LastRole(os[..|os| - 1], id)
  }

  ghost function LastLag(os: seq<Observation>, id: NodeId): (LagState, Option<int>, Option<int>) {
    if os == [] then (NotApplicable, None, None)
    else
      var o := os[|os| - 1];
      if o.SawLag? && o.id == id then (o.state, o.lagMs, Some(o.at)) else LastLag(os[..|os| - 1], id)
  }

  ghost function LastLiveness(os: seq<Observation>, id: NodeId): (Liveness, Option<int>) {
    if os == [] then (LivenessUnknown, None)
    else
      var o := os[|os| - 1];
      if o.SawLiveness? && o.id == id then (o.liveness, Some(o.at)) else LastLiveness(os[..|os| - 1], id)
  }

  lemma {:induction false} ObserveLast(t: Topo, os: seq<Observation>)
    requires os != []
    ensures ObserveAll(t, os) == Observe(ObserveAll(t, os[..|os| - 1]), os[|os| - 1])
    decreases |os|
  {
    if |os| > 1 {
      ObserveLast(Observe(t, os[0]), os[1..]);
      assert os[1..][..|os| - 2] == os[..|os| - 1][1..];
    }
  }

  /** A node holds the last role, the last lag sample and, unless it was excluded, the last
      liveness reported of it, whatever was reported of others in between. */
  lemma {:induction false} LastReportsKept(t: Topo, os: seq<Observation>, id: NodeId)
    requires id in t.nodes && t.nodes[id] == Unprobed()
    ensures var t' := ObserveAll(t, os);
            && id in t'.nodes
            && var ns := t'.nodes[id];
               && ns.observedRole == LastRole(os, id)
               && (ns.lagState, ns.lagMs, ns.lastLagAt) == LastLag(os, id)
               && (!ns.permanentlyDown ==> (ns.liveness, ns.lastProbeAt) == LastLiveness(os, id))
               && (ns.permanentlyDown ==> ns.liveness == Down)
  {
    if os != [] {
      ObserveLast(t, os);
      LastReportsKept(t, os[..|os| - 1], id);
    }
  }
}
