/** The compat port in operation: the session object asks the routing pipeline for a lease when
    it needs one, and every message keeps the invariants of the runs. */
module CompatPort {
  import opened Options
  import opened Classifier
  import opened Topology
  import opened Decisions
  import opened Routing
  import opened Session
  import opened SessionSafety

  /** `handleCompatSQL` asks for a lease only without an upstream and outside a failed
      transaction; Terminate and a buffered transaction start never get there. */
  predicate NeedsLease(s: State, msg: ClientMsg) {
    !msg.Terminate? && !Buffers(s, msg) && s.tx != InFailed && s.upstream.None?
  }

  lemma {:induction false} LeaseOnlyIfNeeded(s: State, msg: ClientMsg, g: LeaseResult, h: LeaseResult)
    requires !NeedsLease(s, msg)
    ensures OnClient(s, msg, g) == OnClient(s, msg, h)
  {}

  /** `AcquireUpstreamLease`: the pipeline's decision, with the leased node's role looked up in
      the topology. */
  method AcquireLease(pipe: Pipeline, msg: ClientMsg, windowActive: bool, now: int, order: seq<NodeId>, pool: map<NodeId, PoolOutcome>)
    returns (lease: LeaseResult)
    requires Faithful(msg) && pipe.Snap(order, now, pool).Valid()
    modifies pipe
    ensures lease == Acquire(old(pipe.Snap(order, now, pool)),
                             Request(CompatPort, Some(AskText(msg).keyword.traffic), windowActive), old(pipe.readRR))
  {
    AskIsRouted(msg, windowActive);
    var topo := pipe.topo.State();
    var outcome := pipe.Lease(CompatPort, AskText(msg).sql, windowActive, order, now, pool);
    match outcome {
      case Rejected(code, _) => lease := Refused(code);
      case Leased(node) =>
        lease := Lease(node, if node in topo.nodes then View(topo, node, now).observedRole else RoleUnknown);
      case Fallback(node) =>
        lease := Lease(node, if node in topo.nodes then View(topo, node, now).observedRole else RoleUnknown);
    }
  }

  /** One client message, lease included, is one step of the runs. It keeps their invariant,
      and unless a batch is involved nothing it sends breaks the replica rule. */
  method ServeClient(
    sess: CompatSession, pipe: Pipeline, msg: ClientMsg, now: int, order: seq<NodeId>, pool: map<NodeId, PoolOutcome>,
    ghost w: World)
    requires pipe.Snap(order, now, pool).Valid() && w.sess == sess.Abs() && Inv(w)
    requires Possible(w, FromClient(msg, now, pipe.Snap(order, now, pool), pipe.readRR))
    modifies sess, pipe
    ensures var i := FromClient(msg, now, old(pipe.Snap(order, now, pool)), old(pipe.readRR));
            && sess.Abs() == Next(w, i).sess && Inv(Next(w, i))
            && sess.sent == old(sess.sent) + Do(w.sess, i).out
            && (CarriesBatch(w.sess, msg) || ReplicaSafe(Do(w.sess, i).out))
  {
    ghost var i := FromClient(msg, now, pipe.Snap(order, now, pool), pipe.readRR);
    ghost var grant := Grant(w.sess, msg, now, i.snap, i.rr);
    var lease := Refused("");
    if NeedsLease(sess.Abs(), msg) {
      lease := AcquireLease(pipe, msg, WindowActive(sess.Abs(), now), now, order, pool);
    } else {
      LeaseOnlyIfNeeded(w.sess, msg, lease, grant);
    }
    sess.HandleClient(msg, lease);
    InvStep(w, i);
    StepIsSafe(w, i);
  }

  lemma {:induction false} StepIsSafe(w: World, i: Input)
    requires Inv(w) && Possible(w, i) && i.FromClient?
    ensures CarriesBatch(w.sess, i.msg) || ReplicaSafe(Do(w.sess, i).out)
  {
    GrantNotReplica(w.sess, i.msg, i.now, i.snap, i.rr);
    SafeExactly(w.sess, i.msg, Grant(w.sess, i.msg, i.now, i.snap, i.rr));
  }

  /** One upstream message is one step of the runs. */
  method ServeUpstream(sess: CompatSession, reply: ServerMsg, now: int, ghost w: World)
    requires w.sess == sess.Abs() && Inv(w) && Possible(w, FromUpstream(reply, now))
    modifies sess
    ensures var i := FromUpstream(reply, now);
            && sess.Abs() == Next(w, i).sess && Inv(Next(w, i))
            && sess.sent == old(sess.sent) + Do(w.sess, i).out && ReplicaSafe(Do(w.sess, i).out)
  {
    sess.HandleUpstream(reply, now);
    InvStep(w, FromUpstream(reply, now));
    RepliesStayHere(w.sess, reply, now);
  }
}
