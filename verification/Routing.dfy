/** The routing pipeline: which node a lease request gets, decided from one snapshot of
    the topology and of the policy states. */
module Routing {
  import opened Options
  import opened Topology
  import opened Policy
  import opened Decisions
  import Classifier

  /** A lease request after classification. Only the compat port routes by class. */
  datatype Request = Request(port: Port, cls: Option<Classifier.Traffic>, windowActive: bool)

  /** The router classifies by keyword alone, whatever the session's transaction state. */
  function Classified(port: Port, sql: string, windowActive: bool): Request {
    Request(port, if port == CompatPort then Some(Classifier.KeywordClass(sql).traffic) else None, windowActive)
  }

  datatype Candidate = Candidate(id: NodeId, reasons: seq<string>) {
    predicate Eligible() { reasons == [] }
  }

  /** The policy consulted for each template, fixed when the pipeline is built. */
  datatype PolicyNames = PolicyNames(health: string, lag: string, saturation: string)

  datatype PoolOutcome = PoolMissing | PoolSaturated | Connected

  /** Everything one decision reads. `order` is the order in which the node map happens to
      be iterated; without an engine every policy is satisfied. */
  datatype Snapshot = Snapshot(
    topo: Topo, engine: Option<States>, names: PolicyNames, order: seq<NodeId>, now: int,
    pool: map<NodeId, PoolOutcome>)
  {
    ghost predicate Valid() {
      && (forall id :: id in order <==> id in topo.nodes)
      && (forall i, j :: 0 <= i < j < |order| ==> order[i] != order[j])
    }
  }

  datatype Outcome = Leased(node: NodeId) | Fallback(node: NodeId) | Rejected(code: string, reason: string)

  const ROUND_ROBIN_MODULUS := 0x1_0000_0000_0000_0000

  // ---------- eligibility ----------

  function RoleReasons(port: Port, cls: Option<Classifier.Traffic>, windowActive: bool, role: Role): seq<string> {
    var needsPrimary := port == WritePort || cls == Some(Classifier.Write);
    var needsReplica := port == ReadPort || cls == Some(Classifier.Read);
    if cls == Some(Classifier.Read) && windowActive then
      match role
      case Primary => []
      case Replica => ["post_write_window:primary_only"]
      case RoleUnknown => ["role:unknown"]
    else if needsPrimary && role != Primary then
      [if role == RoleUnknown then "role:unknown" else "role:not_primary"]
    else if !needsPrimary && needsReplica && role != Replica then
      [if role == RoleUnknown then "role:unknown" else "role:not_replica"]
    else []
  }

  function PolicyReasons(engine: Option<States>, name: string, id: NodeId, default: string): seq<string> {
    if engine.None? then []
    else
      var (eligible, reason) := PolicyState(engine.value, name, id);
      if eligible then [] else [if reason == "" then default else reason]
  }

  /** The full eligibility chain for one node. */
  function CandidateOf(snap: Snapshot, req: Request, id: NodeId): Candidate
    requires id in snap.topo.nodes
  {
    var v := View(snap.topo, id, snap.now);
    Candidate(id,
      (if v.systemId != "" && v.systemId != snap.topo.clusterId then ["system_id:mismatch"] else [])
      + RoleReasons(req.port, req.cls, req.windowActive, v.observedRole)
      + PolicyReasons(snap.engine, snap.names.health, id, "liveness:not_up")
      + (if req.cls == Some(Classifier.Write) then []
         else PolicyReasons(snap.engine, snap.names.lag, id, "lag:policy_active"))
      + PolicyReasons(snap.engine, snap.names.saturation, id, "pool:saturated"))
  }

  predicate IsEligible(snap: Snapshot, req: Request, id: NodeId) {
    id in snap.topo.nodes && CandidateOf(snap, req, id).Eligible()
  }

  function EligibleIds(snap: Snapshot, req: Request, order: seq<NodeId>): (ids: seq<NodeId>)
    ensures forall id :: id in ids <==> id in order && IsEligible(snap, req, id)
  {
    if order == [] then []
    else
      var rest := EligibleIds(snap, req, order[..|order| - 1]);
      var last := order[|order| - 1];
      assert order == order[..|order| - 1] + [last];
      if IsEligible(snap, req, last) then rest + [last] else rest
  }

  // ---------- selection ----------

  /** Go's string order. */
  predicate Less(a: string, b: string) {
    b != [] && (a == [] || a[0] < b[0] || (a[0] == b[0] && Less(a[1..], b[1..])))
  }

  function Lowest(ids: seq<NodeId>): (id: NodeId)
    requires ids != []
    ensures id in ids
  {
    if |ids| == 1 then ids[0]
    else
      var m := Lowest(ids[..|ids| - 1]);
      if Less(ids[|ids| - 1], m) then ids[|ids| - 1] else m
  }

  function Select(eligible: seq<NodeId>, port: Port, primary: Option<NodeId>, rr: nat): (id: NodeId)
    requires eligible != []
    ensures id in eligible
  {
    if port == WritePort then
      if primary.Some? && primary.value in eligible then primary.value else Lowest(eligible)
    else if |eligible| == 1 then eligible[0]
    else eligible[(rr + 1) % ROUND_ROBIN_MODULUS % |eligible|]
  }

  // ---------- the decision ----------

  function Connect(pool: map<NodeId, PoolOutcome>, node: NodeId, granted: Outcome): Outcome {
    var p := if node in pool then pool[node] else PoolMissing;
    match p
    case PoolMissing => Rejected("57P03", "pool_lookup_failed")
    case PoolSaturated => Rejected("53300", "pool:acquisition_failed")
    case Connected => granted
  }

  /** The outcome once the eligible nodes and the primary are known. */
  function Resolve(req: Request, eligible: seq<NodeId>, primary: Option<NodeId>, pool: map<NodeId, PoolOutcome>, rr: nat): Outcome {
    if eligible == [] then
      if req.cls == Some(Classifier.Read) && primary.Some? then Connect(pool, primary.value, Fallback(primary.value))
      else Rejected("57P03", if req.port == WritePort || req.cls == Some(Classifier.Write) then "no_primary" else "no_eligible_replica")
    else if req.port == WritePort && primary.None? then Rejected("57P03", "no_primary")
    else
      var node := Select(eligible, req.port, primary, rr);
      Connect(pool, node, Leased(node))
  }

  ghost function Decide(snap: Snapshot, req: Request, rr: nat): Outcome {
    if req.port == InvalidPort then Rejected("0A000", "invalid_port")
    else if snap.order == [] then Rejected("57P03", "no_nodes")
    else Resolve(req, EligibleIds(snap, req, snap.order), PrimaryOf(snap.topo), snap.pool, rr)
  }

  /** What the session receives: the role is read from the same snapshot. */
  datatype LeaseResult = Lease(node: NodeId, role: Role) | Refused(code: string)

  ghost function Acquire(snap: Snapshot, req: Request, rr: nat): LeaseResult {
    match Decide(snap, req, rr)
    case Rejected(code, _) => Refused(code)
    case Leased(node) => Lease(node, if node in snap.topo.nodes then View(snap.topo, node, snap.now).observedRole else RoleUnknown)
    case Fallback(node) => Lease(node, if node in snap.topo.nodes then View(snap.topo, node, snap.now).observedRole else RoleUnknown)
  }

  // ---------- the pipeline ----------

  function KindOf(o: Outcome): Kind {
    match o
    case Leased(_) => KindLeased
    case Fallback(_) => KindFallback
    case Rejected(_, _) => KindRejected
  }

  function ReasonOf(o: Outcome): string {
    match o
    case Leased(_) => ""
    case Fallback(_) => "empty_eligible_set"
    case Rejected(_, reason) => reason
  }

  /** What one published decision adds: nothing without a bus. */
  datatype Published = Published(total: nat, keyed: map<string, nat>)

  function Publish(p: Published, hasBus: bool, port: Port, kind: Kind, reason: string): Published {
    if hasBus then Published(p.total + 1, Incremented(p.keyed, Key(port, kind, reason))) else p
  }

  class Pipeline {
    const topo: Cluster
    const names: PolicyNames
    const hasBus: bool
    var engine: Option<States>
    var readRR: nat
    var tally: Tally
    var published: Published
    var reclassifications: nat

    constructor (topo: Cluster, names: PolicyNames, engine: Option<States>, hasBus: bool)
      ensures this.topo == topo && this.names == names && this.engine == engine && this.hasBus == hasBus
      ensures tally == Tally(0, 0, 0, 0) && published == Published(0, map[]) && reclassifications == 0
    {
      this.topo, this.names, this.engine, this.hasBus := topo, names, engine, hasBus;
      readRR, tally, published, reclassifications := 0, Tally(0, 0, 0, 0), Published(0, map[]), 0;
    }

    method EmitEvent(port: Port, kind: Kind, reason: string)
      modifies this`published
      ensures published == Publish(old(published), hasBus, port, kind, reason)
    {
      if !hasBus { return; }
      var key := Key(port, kind, reason);
      var count := 0;
      if key in published.keyed { count := published.keyed[key]; }
      published := Published(published.total + 1, published.keyed[key := count + 1]);
    }

    /** A rejection decided by the session is counted and published like a routed one. */
    method RejectReadPortWrite()
      modifies this`tally, this`published
      ensures tally == Bump(Started(old(tally)), KindRejected)
      ensures published == Publish(old(published), hasBus, ReadPort, KindRejected, "read_port:write_attempted")
    {
      tally := tally.(total := tally.total + 1);
      tally := tally.(rejected := tally.rejected + 1);
      EmitEvent(ReadPort, KindRejected, "read_port:write_attempted");
    }

    method RejectCompatReclassification()
      modifies this`tally, this`published, this`reclassifications
      ensures tally == Bump(Started(old(tally)), KindRejected)
      ensures published == Publish(old(published), hasBus, CompatPort, KindRejected, "compat:reclassification")
      ensures reclassifications == old(reclassifications) + 1
    {
      tally := tally.(total := tally.total + 1);
      tally := tally.(rejected := tally.rejected + 1);
      reclassifications := reclassifications + 1;
      EmitEvent(CompatPort, KindRejected, "compat:reclassification");
    }

    ghost function Snap(order: seq<NodeId>, now: int, pool: map<NodeId, PoolOutcome>): Snapshot
      reads this, topo
    {
      Snapshot(topo.State(), engine, names, order, now, pool)
    }

    method FilterCandidates(snap: Snapshot, req: Request) returns (candidates: seq<Candidate>)
      requires forall id :: id in snap.order ==> id in snap.topo.nodes
      ensures |candidates| == |snap.order|
      ensures forall i :: 0 <= i < |candidates| ==> candidates[i] == CandidateOf(snap, req, snap.order[i])
    {
      candidates := [];
      for i := 0 to |snap.order|
        invariant |candidates| == i
        invariant forall j :: 0 <= j < i ==> candidates[j] == CandidateOf(snap, req, snap.order[j])
      {
        var c := Evaluate(snap, req, snap.order[i]);
        candidates := candidates + [c];
      }
    }

    /** Every filter runs once and either adds a reason or does not. */
    method Evaluate(snap: Snapshot, req: Request, id: NodeId) returns (c: Candidate)
      requires id in snap.topo.nodes
      ensures c == CandidateOf(snap, req, id)
    {
      var v := View(snap.topo, id, snap.now);
      var reasons: seq<string> := [];
      if v.systemId != "" && v.systemId != snap.topo.clusterId {
        reasons := ["system_id:mismatch"];
      }
      reasons := reasons + RoleReasons(req.port, req.cls, req.windowActive, v.observedRole);
      reasons := reasons + PolicyReasons(snap.engine, snap.names.health, id, "liveness:not_up");
      var lag := [];
      if req.cls != Some(Classifier.Write) {
        lag := PolicyReasons(snap.engine, snap.names.lag, id, "lag:policy_active");
      }
      reasons := reasons + lag + PolicyReasons(snap.engine, snap.names.saturation, id, "pool:saturated");
      c := Candidate(id, reasons);
    }

    method EligibleNodes(ghost snap: Snapshot, ghost req: Request, candidates: seq<Candidate>) returns (ids: seq<NodeId>)
      requires |candidates| == |snap.order|
      requires forall id :: id in snap.order ==> id in snap.topo.nodes
      requires forall i :: 0 <= i < |candidates| ==> candidates[i] == CandidateOf(snap, req, snap.order[i])
      ensures ids == EligibleIds(snap, req, snap.order)
    {
      ids := [];
      for i := 0 to |candidates|
        invariant ids == EligibleIds(snap, req, snap.order[..i])
      {
        assert snap.order[..i + 1][..i] == snap.order[..i];
        if candidates[i].Eligible() { ids := ids + [candidates[i].id]; }
      }
      assert snap.order[..|candidates|] == snap.order;
    }

    method SelectNode(eligible: seq<NodeId>, port: Port, primary: Option<NodeId>) returns (id: NodeId)
      requires eligible != []
      modifies this`readRR
      ensures id == Select(eligible, port, primary, old(readRR))
      ensures readRR == if port != WritePort && |eligible| > 1 then (old(readRR) + 1) % ROUND_ROBIN_MODULUS else old(readRR)
    {
      if port == WritePort {
        if primary.Some? {
          for i := 0 to |eligible|
            invariant primary.value !in eligible[..i]
          {
            if eligible[i] == primary.value { return eligible[i]; }
          }
          assert eligible[..|eligible|] == eligible;
        }
        id := eligible[0];
        for i := 1 to |eligible|
          invariant id == Lowest(eligible[..i])
        {
          assert eligible[..i + 1][..i] == eligible[..i];
          if Less(eligible[i], id) { id := eligible[i]; }
        }
        assert eligible[..|eligible|] == eligible;
        return;
      }
      if |eligible| == 1 { return eligible[0]; }
      readRR := (readRR + 1) % ROUND_ROBIN_MODULUS;
      id := eligible[readRR % |eligible|];
    }

    method Lease(port: Port, sql: string, windowActive: bool, order: seq<NodeId>, now: int, pool: map<NodeId, PoolOutcome>)
      returns (outcome: Outcome)
      requires Snap(order, now, pool).Valid()
      modifies this`readRR, this`tally, this`published
      ensures outcome == Decide(Snap(order, now, pool), Classified(port, sql, windowActive), old(readRR))
      ensures tally == Bump(Started(old(tally)), KindOf(outcome))
      ensures published == Publish(old(published), hasBus, port, KindOf(outcome), ReasonOf(outcome))
    {
      outcome := LeaseClassified(Classified(port, sql, windowActive), order, now, pool);
      EmitEvent(port, KindOf(outcome), ReasonOf(outcome));
    }

    /** One decision: the outcome of the snapshot, counted once in the total and once under
        its own kind. */
    method LeaseClassified(req: Request, order: seq<NodeId>, now: int, pool: map<NodeId, PoolOutcome>) returns (outcome: Outcome)
      requires Snap(order, now, pool).Valid()
      modifies this`readRR, this`tally
      ensures outcome == Decide(Snap(order, now, pool), req, old(readRR))
      ensures tally == Bump(Started(old(tally)), KindOf(outcome))
    {
      tally := Started(tally);
      if req.port == InvalidPort {
        outcome := Reject("0A000", "invalid_port");
      } else if |order| == 0 {
        outcome := Reject("57P03", "no_nodes");
      } else {
        var eligible, primary := Gather(Snapshot(topo.State(), engine, names, order, now, pool), req);
        outcome := Choose(req, eligible, primary, pool);
      }
    }

    method Gather(snap: Snapshot, req: Request) returns (eligible: seq<NodeId>, primary: Option<NodeId>)
      requires snap.Valid() && snap.topo == topo.State()
      ensures eligible == EligibleIds(snap, req, snap.order)
      ensures primary == PrimaryOf(snap.topo)
    {
      var candidates := FilterCandidates(snap, req);
      eligible := EligibleNodes(snap, req, candidates);
      var view := topo.FindPrimary(snap.now);
      primary := if view.Some? then Some(view.value.id) else None;
    }

    method Choose(req: Request, eligible: seq<NodeId>, primary: Option<NodeId>, pool: map<NodeId, PoolOutcome>)
      returns (outcome: Outcome)
      modifies this`readRR, this`tally
      ensures outcome == Resolve(req, eligible, primary, pool, old(readRR))
      ensures tally == Bump(old(tally), KindOf(outcome))
    {
      if |eligible| == 0 {
        if req.cls == Some(Classifier.Read) && primary.Some? {
          outcome := Connect(pool, primary.value, Fallback(primary.value));
          if outcome.Rejected? {
            tally := tally.(rejected := tally.rejected + 1);
          } else {
            tally := tally.(fallback := tally.fallback + 1);
          }
          return;
        }
        var reason := "no_eligible_replica";
        if req.port == WritePort || req.cls == Some(Classifier.Write) { reason := "no_primary"; }
        outcome := Reject("57P03", reason);
        return;
      }
      if req.port == WritePort && primary.None? {
        outcome := Reject("57P03", "no_primary");
        return;
      }
      var chosen := SelectNode(eligible, req.port, primary);
      outcome := Connect(pool, chosen, Leased(chosen));
      if outcome.Rejected? {
        tally := tally.(rejected := tally.rejected + 1);
      } else {
        tally := tally.(leased := tally.leased + 1);
      }
    }

    method Reject(code: string, reason: string) returns (outcome: Outcome)
      modifies this`tally
      ensures outcome == Rejected(code, reason)
      ensures tally == Bump(old(tally), KindRejected)
    {
      tally := tally.(rejected := tally.rejected + 1);
      outcome := Rejected(code, reason);
    }
  }
}
