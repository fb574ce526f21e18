/** What the client is sent from its upstream connections, over every run of the session:
    everything that arrives, in order and once each, but the block that answers a replayed
    BEGIN. Stated on what was replayed and what arrived. */
module Relay {
  import opened Options
  import opened Classifier
  import opened Topology
  import opened Decisions
  import opened Routing
  import opened Session
  import opened SessionSafety

  /** The upstream side of a session, in order: a replayed BEGIN going out, a message coming in. */
  datatype Item = Replayed | Arrived(m: ServerMsg)

  ghost predicate Closes(x: Item) {
    x.Arrived? && x.m.Ready?
  }

  /** A BEGIN was replayed and no ReadyForQuery has arrived since. */
  ghost predicate Waiting(tl: seq<Item>) {
    exists j :: 0 <= j < |tl| && OpenSince(tl, j, |tl|)
  }

  ghost predicate OpenSince(tl: seq<Item>, j: nat, k: nat)
    requires j < k <= |tl|
  {
    tl[j].Replayed? && forall i :: j < i < k ==> !Closes(tl[i])
  }

  /** The item at `k` belongs to the answer to a replayed BEGIN. */
  ghost predicate Swallowed(tl: seq<Item>, k: nat)
    requires k < |tl|
  {
    exists j :: 0 <= j < k && OpenSince(tl, j, k)
  }

  /** What the client gets for one item: the message itself; for a swallowed one nothing, but
      an error and status I when it shows that BEGIN failed. */
  ghost function Piece(tl: seq<Item>, k: nat): seq<ServerMsg>
    requires k < |tl|
  {
    if tl[k].Replayed? then []
    else if !Swallowed(tl, k) then [tl[k].m]
    else if tl[k].m.Ready? && tl[k].m.status != T then [Error("25P02"), Ready(I)]
    else []
  }

  ghost function Expected(tl: seq<Item>): seq<ServerMsg> {
    if tl == [] then [] else Expected(tl[..|tl| - 1]) + Piece(tl, |tl| - 1)
  }

  // ---------- runs ----------

  ghost predicate Replays(out: seq<Out>) {
    exists o :: o in out && o.ToUpstream? && o.replayed
  }

  ghost function ItemsOf(s: State, i: Input): seq<Item> {
    match i
    case FromClient(_, _, _, _) => if Replays(Do(s, i).out) then [Replayed] else []
    case FromUpstream(reply, _) => [Arrived(reply)]
    case Released(_) => []
  }

  ghost function Timeline(w: World, ins: seq<Input>): seq<Item>
    decreases |ins|
  {
    if ins == [] then [] else ItemsOf(w.sess, ins[0]) + Timeline(Next(w, ins[0]), ins[1..])
  }

  ghost function Messages(out: seq<Out>): seq<ServerMsg> {
    if out == [] then [] else (if out[0].ToClient? then [out[0].server] else []) + Messages(out[1..])
  }

  /** What upstream messages made the session send to the client. */
  ghost function Relayed(w: World, ins: seq<Input>): seq<ServerMsg>
    decreases |ins|
  {
    if ins == [] then []
    else (if ins[0].FromUpstream? then Messages(Do(w.sess, ins[0]).out) else []) + Relayed(Next(w, ins[0]), ins[1..])
  }

  lemma {:induction false} OpenSnoc(tl: seq<Item>, x: Item, j: nat)
    requires j < |tl|
    ensures OpenSince(tl + [x], j, |tl|) <==> OpenSince(tl, j, |tl|)
    ensures OpenSince(tl + [x], j, |tl| + 1) <==> OpenSince(tl, j, |tl|) && !Closes(x)
  {
    var all, n := tl + [x], |tl|;
    assert all[n] == x && forall i :: 0 <= i < n ==> all[i] == tl[i];
    if OpenSince(all, j, n + 1) { assert !Closes(all[n]); }
  }

  lemma {:induction false} WaitingSnoc(tl: seq<Item>, x: Item)
    ensures Waiting(tl + [x]) <==> x.Replayed? || (Waiting(tl) && !Closes(x))
    ensures Swallowed(tl + [x], |tl|) <==> Waiting(tl)
  {
    var all, n := tl + [x], |tl|;
    forall j | 0 <= j < n
      ensures OpenSince(all, j, n) <==> OpenSince(tl, j, n)
      ensures OpenSince(all, j, n + 1) <==> OpenSince(tl, j, n) && !Closes(x)
    {
      OpenSnoc(tl, x, j);
    }
    assert |all| == n + 1 && all[n] == x;
    assert OpenSince(all, n, n + 1) <==> x.Replayed?;
    if Waiting(tl) {
      var j :| 0 <= j < n && OpenSince(tl, j, n);
      assert OpenSince(all, j, n) && (!Closes(x) ==> OpenSince(all, j, n + 1));
    }
    if Waiting(all) {
      var j :| 0 <= j < n + 1 && OpenSince(all, j, n + 1);
      assert j < n ==> OpenSince(tl, j, n) && !Closes(x);
    }
  }

  lemma {:induction false} ExpectedSnoc(tl: seq<Item>, x: Item)
    ensures Expected(tl + [x]) == Expected(tl) + Piece(tl + [x], |tl|)
  {
    assert (tl + [x])[..|tl|] == tl;
  }

  lemma {:induction false} MessagesOf(a: Out, b: Out)
    requires a.ToClient? && b.ToClient?
    ensures Messages([]) == [] && Messages([a]) == [a.server] && Messages([a, b]) == [a.server, b.server]
  {
    assert [a][1..] == [] && [b][1..] == [] && [a, b][1..] == [b];
    assert Messages([b]) == [b.server];
  }

  /** One upstream message: swallowed or passed on. */
  lemma {:induction false} UpstreamPiece(s: State, reply: ServerMsg, now: int, tl: seq<Item>)
    requires s.swallowing <==> Waiting(tl)
    ensures Messages(OnUpstream(s, reply, now).out) == Piece(tl + [Arrived(reply)], |tl|)
    ensures OnUpstream(s, reply, now).state.swallowing <==> Waiting(tl + [Arrived(reply)])
  {
    WaitingSnoc(tl, Arrived(reply));
    MessagesOf(ToClient(reply), ToClient(reply));
    MessagesOf(ToClient(Error("25P02")), ToClient(Ready(I)));
  }

  lemma {:induction false} DeliverReplays(s: State, msg: ClientMsg, role: Role)
    ensures Replays(Deliver(s, msg, role).out) <==> s.pendingBegin.Some?
  {
    if s.pendingBegin.Some? {
      var o := ToUpstream(Query(s.pendingBegin.value), role, true);
      DeliverOut(s, msg, role, o);
    }
    if Replays(Deliver(s, msg, role).out) {
      var o :| o in Deliver(s, msg, role).out && o.ToUpstream? && o.replayed;
      DeliverOut(s, msg, role, o);
    }
  }

  lemma {:induction false} ConcludeReplays(h: Handled, msg: ClientMsg)
    requires forall o :: o in h.out ==> o.ToClient?
    ensures var e := Conclude(h.state, h.verdict, msg);
            e.state.closed || (e.state.swallowing <==> h.state.swallowing || Replays(h.out + e.out))
  {
    var e := Conclude(h.state, h.verdict, msg);
    if h.verdict == Forward && h.state.upstream.Some? {
      DeliverReplays(h.state, msg, h.state.upstream.value);
      if Replays(e.out) {
        var o :| o in e.out && o.ToUpstream? && o.replayed;
        assert o in h.out + e.out;
      }
    }
  }

  lemma {:induction false} SqlSwallows(s: State, msg: ClientMsg, grant: LeaseResult)
    ensures HandleSql(s, msg, grant).state.swallowing == s.swallowing
  {}

  /** A client message makes the session wait for a BEGIN's answer exactly by replaying it. */
  lemma {:induction false} ClientSwallows(s: State, msg: ClientMsg, grant: LeaseResult)
    ensures var e := OnClient(s, msg, grant);
            e.state.closed || (e.state.swallowing <==> s.swallowing || Replays(e.out))
  {
    if !msg.Terminate? && !Buffers(s, msg) {
      SqlOut(s, msg, grant);
      SqlSwallows(s, msg, grant);
      ConcludeReplays(HandleSql(s, msg, grant), msg);
    }
  }

  lemma {:induction false} RelayStep(w: World, i: Input, tl: seq<Item>)
    requires Possible(w, i) && (w.sess.swallowing <==> Waiting(tl))
    ensures var items := ItemsOf(w.sess, i);
            && Expected(tl + items) == Expected(tl) + (if i.FromUpstream? then Messages(Do(w.sess, i).out) else [])
            && (Next(w, i).sess.closed || (Next(w, i).sess.swallowing <==> Waiting(tl + items)))
  {
    match i
    case FromClient(msg, now, snap, rr) =>
      ClientSwallows(w.sess, msg, Grant(w.sess, msg, now, snap, rr));
      WaitingSnoc(tl, Replayed);
      ExpectedSnoc(tl, Replayed);
      assert tl + [] == tl;
    case FromUpstream(reply, now) =>
      UpstreamPiece(w.sess, reply, now, tl);
      ExpectedSnoc(tl, Arrived(reply));
    case Released(_) =>
      assert tl + [] == tl;
  }

  lemma {:induction false} Chain(tl: seq<Item>, items: seq<Item>, rest: seq<Item>, m: seq<ServerMsg>, r: seq<ServerMsg>)
    requires Expected(tl + items) == Expected(tl) + m && Expected((tl + items) + rest) == Expected(tl + items) + r
    ensures Expected(tl + (items + rest)) == Expected(tl) + (m + r)
  {
    Regroup(tl, items, rest);
    Regroup(Expected(tl), m, r);
  }

  lemma {:induction false} Regroup<A>(a: seq<A>, b: seq<A>, c: seq<A>)
    ensures (a + b) + c == a + (b + c)
  {}

  lemma {:induction false} Unfolded(w: World, ins: seq<Input>)
    requires ins != []
    ensures Timeline(w, ins) == ItemsOf(w.sess, ins[0]) + Timeline(Next(w, ins[0]), ins[1..])
    ensures Relayed(w, ins) == (if ins[0].FromUpstream? then Messages(Do(w.sess, ins[0]).out) else [])
                               + Relayed(Next(w, ins[0]), ins[1..])
  {}

  lemma {:induction false} RelayRun(w: World, ins: seq<Input>, tl: seq<Item>)
    requires Run(w, ins) && (w.sess.closed || (w.sess.swallowing <==> Waiting(tl)))
    ensures Expected(tl + Timeline(w, ins)) == Expected(tl) + Relayed(w, ins)
    decreases |ins|
  {
    if ins == [] {
      assert tl + [] == tl;
    } else {
      var w1, items := Next(w, ins[0]), ItemsOf(w.sess, ins[0]);
      RelayStep(w, ins[0], tl);
      RelayRun(w1, ins[1..], tl + items);
      Unfolded(w, ins);
      Chain(tl, items, Timeline(w1, ins[1..]), if ins[0].FromUpstream? then Messages(Do(w.sess, ins[0]).out) else [],
            Relayed(w1, ins[1..]));
    }
  }

  lemma {:induction false} NothingAhead(tl: seq<Item>, r: seq<ServerMsg>)
    requires Expected([] + tl) == Expected([]) + r
    ensures Expected(tl) == r
  {
    assert [] + tl == tl && [] + r == r;
  }

  /** In every run the client is sent, in order and once each, every message that arrives from
      upstream, except those that follow a replayed BEGIN up to the next ReadyForQuery; and if
      that one shows that BEGIN failed, an error and status I in their place. */
  lemma {:induction false} RelayedExactly(w: World, ins: seq<Input>)
    requires Init(w) && Run(w, ins)
    ensures Relayed(w, ins) == Expected(Timeline(w, ins))
  {
    RelayRun(w, ins, []);
    NothingAhead(Timeline(w, ins), Relayed(w, ins));
  }

  ghost function Arrivals(tl: seq<Item>): seq<ServerMsg> {
    if tl == [] then []
    else Arrivals(tl[..|tl| - 1]) + (if tl[|tl| - 1].Arrived? then [tl[|tl| - 1].m] else [])
  }

  lemma {:induction false} NothingSwallowed(tl: seq<Item>)
    requires Replayed !in tl
    ensures Expected(tl) == Arrivals(tl)
  {
    if tl != [] { NothingSwallowed(tl[..|tl| - 1]); }
  }

  /** Where no BEGIN is replayed, all that arrives is passed on. */
  lemma {:induction false} AllPassedOn(w: World, ins: seq<Input>)
    requires Init(w) && Run(w, ins) && Replayed !in Timeline(w, ins)
    ensures Relayed(w, ins) == Arrivals(Timeline(w, ins))
  {
    RelayedExactly(w, ins);
    NothingSwallowed(Timeline(w, ins));
  }
}
