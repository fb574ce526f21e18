/** Exactly when a routing decision grants, falls back or refuses, which node it picks, and how
    picks rotate. The conditions speak of what is observed, not of the filters. */
module RoutingOutcome {
  import opened Options
  import opened Topology
  import opened Policy
  import opened Decisions
  import opened Routing
  import opened RoutingSafety
  import Classifier

  // ---------- eligibility ----------

  /** No engine is consulted, or it finds the node eligible. */
  ghost predicate Approves(snap: Snapshot, name: string, id: NodeId) {
    snap.engine.Some? ==> PolicyState(snap.engine.value, name, id).0
  }

  lemma {:induction false} RoleExactly(req: Request, role: Role)
    requires WellFormed(req) && req.port != InvalidPort
    ensures RoleReasons(req.port, req.cls, req.windowActive, role) == [] <==> role == RequiredRole(req)
  {}

  lemma {:induction false} PolicyExactly(snap: Snapshot, name: string, id: NodeId, default: string)
    ensures PolicyReasons(snap.engine, name, id, default) == [] <==> Approves(snap, name, id)
  {}

  /** A node is eligible exactly when it is seen in the role the request calls for, its system
      identifier is unknown or the cluster's, and the consulted policies approve of it: health
      and saturation always, lag for everything but a compat write. */
  lemma {:induction false} EligibleExactly(snap: Snapshot, req: Request, id: NodeId)
    requires WellFormed(req) && req.port != InvalidPort && id in snap.topo.nodes
    ensures IsEligible(snap, req, id) <==>
            && View(snap.topo, id, snap.now).observedRole == RequiredRole(req)
            && (snap.topo.nodes[id].systemId == "" || snap.topo.nodes[id].systemId == snap.topo.clusterId)
            && Approves(snap, snap.names.health, id)
            && (req.cls == Some(Classifier.Write) || Approves(snap, snap.names.lag, id))
            && Approves(snap, snap.names.saturation, id)
  {
    RoleExactly(req, View(snap.topo, id, snap.now).observedRole);
    PolicyExactly(snap, snap.names.health, id, "liveness:not_up");
    PolicyExactly(snap, snap.names.lag, id, "lag:policy_active");
    PolicyExactly(snap, snap.names.saturation, id, "pool:saturated");
  }

  // ---------- the order of identifiers ----------

  /** Byte order: at the first difference the smaller character, or the end, comes first. */
  ghost predicate Before(a: string, b: string, k: nat) {
    k <= |a| && k < |b| && a[..k] == b[..k] && (k == |a| || a[k] < b[k])
  }

  lemma {:induction false} LessBefore(a: string, b: string) returns (k: nat)
    requires Less(a, b)
    ensures Before(a, b, k)
  {
    if a == [] || a[0] < b[0] {
      k := 0;
    } else {
      var j := LessBefore(a[1..], b[1..]);
      k := j + 1;
      assert a[..k] == [a[0]] + a[1..][..j] && b[..k] == [b[0]] + b[1..][..j];
    }
  }

  lemma {:induction false} BeforeLess(a: string, b: string, k: nat)
    requires Before(a, b, k)
    ensures Less(a, b)
    decreases k
  {
    if k > 0 {
      assert a[0] == a[..k][0] == b[..k][0] == b[0];
      assert a[1..][..k - 1] == a[..k][1..] && b[1..][..k - 1] == b[..k][1..];
      BeforeLess(a[1..], b[1..], k - 1);
    }
  }

  lemma {:induction false} LessTotal(a: string, b: string)
    ensures a == b || Less(a, b) || Less(b, a)
  {
    if a != [] && b != [] && a[0] == b[0] {
      LessTotal(a[1..], b[1..]);
      assert a == [a[0]] + a[1..] && b == [b[0]] + b[1..];
    }
  }

  lemma {:induction false} LessTransitive(a: string, b: string, c: string)
    requires Less(a, b) && Less(b, c)
    ensures Less(a, c)
  {
    if a != [] && a[0] == b[0] && b[0] == c[0] { LessTransitive(a[1..], b[1..], c[1..]); }
  }

  lemma {:induction false} LessIrreflexive(a: string)
    ensures !Less(a, a)
  {
    if a != [] { LessIrreflexive(a[1..]); }
  }

  /** The least identifier of the list in byte order. */
  lemma {:induction false} LowestIsLeast(ids: seq<NodeId>, id: NodeId)
    requires id in ids
    ensures !Less(id, Lowest(ids))
  {
    var n := |ids| - 1;
    assert ids == ids[..n] + [ids[n]];
    if |ids| == 1 {
      LessIrreflexive(id);
    } else {
      var m := Lowest(ids[..n]);
      if id in ids[..n] { LowestIsLeast(ids[..n], id); } else { LessIrreflexive(id); }
      if Less(ids[n], m) && Less(id, ids[n]) { LessTransitive(id, ids[n], m); }
    }
  }

  // ---------- outcomes ----------

  ghost predicate Somebody(snap: Snapshot, req: Request) {
    exists id :: IsEligible(snap, req, id)
  }

  ghost function PoolOf(snap: Snapshot, id: NodeId): PoolOutcome {
    if id in snap.pool then snap.pool[id] else PoolMissing
  }

  /** What an acquisition that does not succeed reports. */
  ghost function PoolRefusal(p: PoolOutcome): Outcome
    requires p != Connected
  {
    if p == PoolSaturated then Rejected("53300", "pool:acquisition_failed") else Rejected("57P03", "pool_lookup_failed")
  }

  ghost predicate Attempt(snap: Snapshot, node: NodeId, granted: Outcome, outcome: Outcome) {
    outcome == if PoolOf(snap, node) == Connected then granted else PoolRefusal(PoolOf(snap, node))
  }

  lemma {:induction false} SomebodyListed(snap: Snapshot, req: Request)
    requires snap.Valid()
    ensures Somebody(snap, req) <==> EligibleIds(snap, req, snap.order) != []
  {
    var ids := EligibleIds(snap, req, snap.order);
    if ids != [] {
      assert ids[0] in ids;
      assert IsEligible(snap, req, ids[0]);
    }
    if Somebody(snap, req) {
      var id :| IsEligible(snap, req, id);
      assert id in snap.order;
      assert id in ids;
    }
  }

  /** The requests for which nobody is even looked at. */
  lemma {:induction false} Unroutable(snap: Snapshot, req: Request, rr: nat)
    requires snap.Valid()
    ensures req.port == InvalidPort ==> Decide(snap, req, rr) == Rejected("0A000", "invalid_port")
    ensures req.port != InvalidPort && snap.topo.nodes == map[] ==> Decide(snap, req, rr) == Rejected("57P03", "no_nodes")
  {
    if snap.order != [] { assert snap.order[0] in snap.topo.nodes; }
  }

  /** With nobody eligible, a compat read falls back to the single observed primary, if there
      is one and its pool gives a connection; everything else is refused. */
  lemma {:induction false} NobodyOutcome(snap: Snapshot, req: Request, rr: nat)
    requires snap.Valid() && WellFormed(req) && req.port != InvalidPort && snap.topo.nodes != map[]
    requires !Somebody(snap, req)
    ensures if req.cls == Some(Classifier.Read) && PrimaryOf(snap.topo).Some? then
              Attempt(snap, PrimaryOf(snap.topo).value, Fallback(PrimaryOf(snap.topo).value), Decide(snap, req, rr))
            else
              Decide(snap, req, rr) == Rejected("57P03", if RequiredRole(req) == Primary && req.cls != Some(Classifier.Read)
                                                         then "no_primary" else "no_eligible_replica")
  {
    SomebodyListed(snap, req);
    NodesListed(snap);
  }

  lemma {:induction false} NodesListed(snap: Snapshot)
    requires snap.Valid() && snap.topo.nodes != map[]
    ensures snap.order != []
  {
    var id :| id in snap.topo.nodes;
    assert id in snap.order;
  }

  /** Least in byte order among the eligible nodes. */
  ghost predicate Least(snap: Snapshot, req: Request, n: NodeId) {
    IsEligible(snap, req, n) && forall id :: IsEligible(snap, req, id) ==> !Less(id, n)
  }

  lemma {:induction false} LeastListed(snap: Snapshot, req: Request, n: NodeId)
    requires snap.Valid() && EligibleIds(snap, req, snap.order) != []
    ensures Least(snap, req, n) <==> n == Lowest(EligibleIds(snap, req, snap.order))
  {
    var ids := EligibleIds(snap, req, snap.order);
    var m := Lowest(ids);
    assert IsEligible(snap, req, m);
    forall id | IsEligible(snap, req, id) ensures !Less(id, m) {
      assert id in snap.order;
      LowestIsLeast(ids, id);
    }
    if Least(snap, req, n) { LessTotal(n, m); }
  }

  /** There is somebody to ask: an eligible node, on the write port beside a single observed
      primary; or, for a compat read, that primary alone. */
  ghost predicate Suits(snap: Snapshot, req: Request) {
    && req.port != InvalidPort
    && if Somebody(snap, req) then req.port == WritePort ==> PrimaryOf(snap.topo).Some?
       else req.cls == Some(Classifier.Read) && PrimaryOf(snap.topo).Some?
  }

  /** It is this node's turn: as the fallback; as the eligible primary or else the lowest
      eligible identifier on the write port; by rotation elsewhere. */
  ghost predicate Turn(snap: Snapshot, req: Request, rr: nat, n: NodeId) {
    if !Somebody(snap, req) then PrimaryOf(snap.topo) == Some(n)
    else if req.port == WritePort then
      if PrimaryOf(snap.topo).Some? && IsEligible(snap, req, PrimaryOf(snap.topo).value) then PrimaryOf(snap.topo) == Some(n)
      else Least(snap, req, n)
    else
      var ids := EligibleIds(snap, req, snap.order);
      exists i :: 0 <= i < |ids| && ids[i] == n && i == if |ids| == 1 then 0 else NextRR(rr) % |ids|
  }

  lemma {:induction false} WriteTurn(snap: Snapshot, req: Request, rr: nat, n: NodeId)
    requires snap.Valid() && WellFormed(req) && req.port == WritePort && Somebody(snap, req) && PrimaryOf(snap.topo).Some?
    ensures Turn(snap, req, rr, n) <==> n == Select(EligibleIds(snap, req, snap.order), req.port, PrimaryOf(snap.topo), rr)
  {
    SomebodyListed(snap, req);
    var p := PrimaryOf(snap.topo).value;
    PrimaryKnown(snap.topo);
    assert p in snap.order;
    assert IsEligible(snap, req, p) <==> p in EligibleIds(snap, req, snap.order);
    LeastListed(snap, req, n);
  }

  lemma {:induction false} OtherTurn(snap: Snapshot, req: Request, rr: nat, n: NodeId)
    requires snap.Valid() && WellFormed(req) && req.port in {ReadPort, CompatPort} && Somebody(snap, req)
    ensures Turn(snap, req, rr, n) <==> n == Select(EligibleIds(snap, req, snap.order), req.port, PrimaryOf(snap.topo), rr)
  {
    SomebodyListed(snap, req);
    var ids := EligibleIds(snap, req, snap.order);
    var i := if |ids| == 1 then 0 else NextRR(rr) % |ids|;
    assert ids[i] == Select(ids, req.port, PrimaryOf(snap.topo), rr);
  }

  /** The exact outcome of every request. Without somebody to ask it is refused; otherwise it
      is exactly one node's turn, and that node's pool alone decides between the lease, or the
      fallback, and a refusal. */
  lemma {:induction false} DecidedExactly(snap: Snapshot, req: Request, rr: nat) returns (n: NodeId)
    requires snap.Valid() && WellFormed(req)
    ensures !Suits(snap, req) ==> Decide(snap, req, rr).Rejected?
    ensures Suits(snap, req) ==>
              && Turn(snap, req, rr, n)
              && (forall m :: Turn(snap, req, rr, m) ==> m == n)
              && Attempt(snap, n, if Somebody(snap, req) then Leased(n) else Fallback(n), Decide(snap, req, rr))
  {
    Unroutable(snap, req, rr);
    n := "";
    SomebodyListed(snap, req);
    PrimaryKnown(snap.topo);
    if Suits(snap, req) && Somebody(snap, req) {
      n := Select(EligibleIds(snap, req, snap.order), req.port, PrimaryOf(snap.topo), rr);
      forall m ensures Turn(snap, req, rr, m) <==> m == n {
        if req.port == WritePort { WriteTurn(snap, req, rr, m); } else { OtherTurn(snap, req, rr, m); }
      }
    } else if Suits(snap, req) {
      n := PrimaryOf(snap.topo).value;
      NobodyOutcome(snap, req, rr);
    } else if req.port != InvalidPort && snap.topo.nodes != map[] && !Somebody(snap, req) {
      NobodyOutcome(snap, req, rr);
    }
  }

  lemma {:induction false} PrimaryKnown(t: Topo)
    ensures PrimaryOf(t).Some? ==> PrimaryOf(t).value in t.nodes
  {
    if PrimaryOf(t).Some? {
      PrimaryOfMeaning(t, PrimaryOf(t).value);
      assert PrimaryOf(t).value in WithRole(t, Primary);
    }
  }

  /** The fallback exactly: a compat read, nobody eligible, and this single observed primary,
      whose pool gives a connection. */
  lemma {:induction false} FallbackExactly(snap: Snapshot, req: Request, rr: nat, p: NodeId)
    requires snap.Valid() && WellFormed(req)
    ensures Decide(snap, req, rr) == Fallback(p) <==>
            && req.cls == Some(Classifier.Read) && !Somebody(snap, req)
            && PrimaryOf(snap.topo) == Some(p) && PoolOf(snap, p) == Connected
  {
    var n := DecidedExactly(snap, req, rr);
  }

  // ---------- rotation ----------

  ghost predicate Distinct(ids: seq<NodeId>) {
    forall i, j :: 0 <= i < j < |ids| ==> ids[i] != ids[j]
  }

  lemma {:induction false} EligibleDistinct(snap: Snapshot, req: Request, order: seq<NodeId>)
    requires Distinct(order)
    ensures Distinct(EligibleIds(snap, req, order))
  {
    if order != [] {
      var n := |order| - 1;
      assert Distinct(order[..n]);
      EligibleDistinct(snap, req, order[..n]);
      var rest := EligibleIds(snap, req, order[..n]);
      assert forall id :: id in rest ==> id in order[..n];
      assert order[n] !in rest;
      var ids := EligibleIds(snap, req, order);
      assert ids == rest || ids == rest + [order[n]];
    }
  }

  /** The counter after a choice among several. */
  ghost function NextRR(rr: nat): nat { (rr + 1) % ROUND_ROBIN_MODULUS }

  ghost function After(rr: nat, n: nat): nat {
    if n == 0 then rr else NextRR(After(rr, n - 1))
  }

  /** The choices of `n` requests in a row with the same eligible nodes. */
  ghost function Pick(eligible: seq<NodeId>, port: Port, rr: nat, n: nat): NodeId
    requires |eligible| > 1 && port != WritePort
  {
    Select(eligible, port, None, After(rr, n))
  }

  lemma {:induction false} AfterValue(rr: nat, n: nat)
    requires rr < ROUND_ROBIN_MODULUS && n < ROUND_ROBIN_MODULUS
    ensures After(rr, n) == if rr + n < ROUND_ROBIN_MODULUS then rr + n else rr + n - ROUND_ROBIN_MODULUS
  {
    if n > 0 { AfterValue(rr, n - 1); }
  }

  /** Position picked by the n-th of these requests. */
  ghost function Slot(k: nat, rr: nat, n: nat): nat
    requires k > 0
  {
    (if rr + 1 + n < ROUND_ROBIN_MODULUS then rr + 1 + n else rr + 1 + n - ROUND_ROBIN_MODULUS) % k
  }

  lemma {:induction false} PickSlot(eligible: seq<NodeId>, port: Port, rr: nat, n: nat)
    requires |eligible| > 1 && port != WritePort && rr < ROUND_ROBIN_MODULUS && n < |eligible| < ROUND_ROBIN_MODULUS
    ensures Pick(eligible, port, rr, n) == eligible[Slot(|eligible|, rr, n)]
  {
    AfterValue(rr, n);
    AfterValue(rr, n + 1);
  }

  /** Whether the counter wraps inside a round of `k` requests at a place that is no multiple
      of `k`. */
  ghost predicate Smooth(k: nat, rr: nat)
    requires k > 0
  {
    rr + k < ROUND_ROBIN_MODULUS || rr == ROUND_ROBIN_MODULUS - 1 || ROUND_ROBIN_MODULUS % k == 0
  }

  lemma {:induction false} Multiple(d: int, k: nat)
    ensures d >= 1 ==> d * k >= k
    ensures d <= -1 ==> d * k + k <= 0
    ensures d == 0 ==> d * k == 0
  {}

  lemma {:induction false} SameResidue(x: nat, y: nat, k: nat)
    requires k > 0 && x <= y < x + k && x % k == y % k
    ensures x == y
  {
    var a, b := x / k, y / k;
    assert x == a * k + x % k && y == b * k + y % k;
    assert y - x == (b - a) * k by { assert b * k - a * k == (b - a) * k; }
    Multiple(b - a, k);
  }

  lemma {:induction false} ResidueShift(x: nat, q: nat, k: nat)
    requires k > 0
    ensures (x + q * k) % k == x % k
  {
    if q > 0 {
      ResidueShift(x, q - 1, k);
      assert x + q * k == (x + (q - 1) * k) + k;
      Step(x + (q - 1) * k, k);
    }
  }

  lemma {:induction false} Step(x: nat, k: nat)
    requires k > 0
    ensures (x + k) % k == x % k
  {
    var a := x / k;
    assert x == a * k + x % k;
    assert x + k == (a + 1) * k + x % k by { assert (a + 1) * k == a * k + k; }
    Remainder(x + k, a + 1, x % k, k);
  }

  lemma {:induction false} Remainder(x: nat, q: nat, r: nat, k: nat)
    requires 0 <= r < k && x == q * k + r
    ensures x % k == r
  {
    var a, b := x / k, x % k;
    assert x == a * k + b;
    assert (a - q) * k == r - b by { assert a * k - q * k == (a - q) * k; }
    Multiple(a - q, k);
  }

  /** In a smooth round the slots are those of consecutive numbers. */
  lemma {:induction false} SmoothSlot(k: nat, rr: nat, n: nat)
    requires 1 < k < ROUND_ROBIN_MODULUS && rr < ROUND_ROBIN_MODULUS && n < k && Smooth(k, rr)
    ensures Slot(k, rr, n) == (Base(rr) + n) % k
  {
    if rr + k >= ROUND_ROBIN_MODULUS && rr != ROUND_ROBIN_MODULUS - 1 && rr + 1 + n >= ROUND_ROBIN_MODULUS {
      var q := ROUND_ROBIN_MODULUS / k;
      assert ROUND_ROBIN_MODULUS == q * k + ROUND_ROBIN_MODULUS % k;
      ResidueShift(rr + 1 + n - ROUND_ROBIN_MODULUS, q, k);
    }
  }

  ghost function Base(rr: nat): nat { if rr == ROUND_ROBIN_MODULUS - 1 then 0 else rr + 1 }

  lemma {:induction false} SmoothDistinct(k: nat, rr: nat, i: nat, j: nat)
    requires 1 < k < ROUND_ROBIN_MODULUS && rr < ROUND_ROBIN_MODULUS && Smooth(k, rr) && i < j < k
    ensures Slot(k, rr, i) != Slot(k, rr, j)
  {
    SmoothSlot(k, rr, i);
    SmoothSlot(k, rr, j);
    if Slot(k, rr, i) == Slot(k, rr, j) { SameResidue(Base(rr) + i, Base(rr) + j, k); }
  }

  /** Otherwise two requests of the round meet. */
  lemma {:induction false} RoughMeets(k: nat, rr: nat) returns (i: nat, j: nat)
    requires 1 < k < ROUND_ROBIN_MODULUS && rr < ROUND_ROBIN_MODULUS && !Smooth(k, rr)
    ensures i < j < k && Slot(k, rr, i) == Slot(k, rr, j)
  {
    var m := ROUND_ROBIN_MODULUS;
    var t, r, q := m - 1 - rr, m % k, m / k;
    assert m == q * k + r;
    if r >= t {
      i, j := 0, r;
      Remainder(m - t, q, r - t, k);
      Small(r - t, k);
    } else {
      i, j := t - r, t;
      Remainder(m - r, q, 0, k);
      Small(0, k);
    }
  }

  lemma {:induction false} Small(x: nat, k: nat)
    requires x < k
    ensures x % k == x
  {
    Remainder(x, 0, x, k);
  }

  /** Rotation. As many requests in a row as there are eligible nodes, at least two of them,
      choose all different nodes if and only if the 64-bit counter does not wrap inside the
      round, or wraps at its very start, or their number divides its range. */
  lemma {:induction false} EachChosenOnce(eligible: seq<NodeId>, port: Port, rr: nat)
    requires 1 < |eligible| < ROUND_ROBIN_MODULUS && port != WritePort && rr < ROUND_ROBIN_MODULUS
    requires Distinct(eligible)
    ensures (forall i, j :: 0 <= i < j < |eligible| ==> Pick(eligible, port, rr, i) != Pick(eligible, port, rr, j)) <==>
            Smooth(|eligible|, rr)
  {
    var k := |eligible|;
    if Smooth(k, rr) {
      forall i, j | 0 <= i < j < k ensures Pick(eligible, port, rr, i) != Pick(eligible, port, rr, j) {
        PickSlot(eligible, port, rr, i);
        PickSlot(eligible, port, rr, j);
        SmoothDistinct(k, rr, i, j);
      }
    } else {
      var i, j := RoughMeets(k, rr);
      PickSlot(eligible, port, rr, i);
      PickSlot(eligible, port, rr, j);
    }
  }

  lemma {:induction false} ResidueReached(base: nat, k: nat, v: nat) returns (n: nat)
    requires v < k
    ensures n < k && (base + n) % k == v
  {
    var q, b := base / k, base % k;
    assert base == q * k + b;
    if v >= b {
      n := v - b;
      Remainder(base + n, q, v, k);
    } else {
      n := v - b + k;
      assert base + n == (q + 1) * k + v by { assert (q + 1) * k == q * k + k; }
      Remainder(base + n, q + 1, v, k);
    }
  }

  lemma {:induction false} SlotReached(k: nat, rr: nat, v: nat) returns (n: nat)
    requires 1 < k < ROUND_ROBIN_MODULUS && rr < ROUND_ROBIN_MODULUS && Smooth(k, rr) && v < k
    ensures n < k && Slot(k, rr, n) == v
  {
    n := ResidueReached(Base(rr), k, v);
    SmoothSlot(k, rr, n);
  }

  /** So in such a round every eligible node gets a turn. */
  lemma {:induction false} EveryoneGetsATurn(eligible: seq<NodeId>, port: Port, rr: nat, id: NodeId) returns (n: nat)
    requires 1 < |eligible| < ROUND_ROBIN_MODULUS && port != WritePort && rr < ROUND_ROBIN_MODULUS
    requires Smooth(|eligible|, rr) && id in eligible
    ensures n < |eligible| && Pick(eligible, port, rr, n) == id
  {
    var v :| 0 <= v < |eligible| && eligible[v] == id;
    n := SlotReached(|eligible|, rr, v);
    PickSlot(eligible, port, rr, n);
  }
}
