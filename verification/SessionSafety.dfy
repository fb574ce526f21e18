/** Session and router together: every run of client messages, upstream messages, lease
    decisions and the close-time release, each lease decided from its own snapshot, under a
    non-decreasing clock. */
module SessionSafety {
  import opened Options
  import opened Classifier
  import opened Topology
  import opened Decisions
  import opened Routing
  import opened RoutingSafety
  import opened Session

  // ---------- leases ----------

  /** Messages without SQL ask for a lease with the empty text. */
  const EMPTY_TEXT := Text("", Class(Write, FromDefault), false, false, false, false)

  function AskText(msg: ClientMsg): Text {
    if IsStatement(msg) then msg.text else EMPTY_TEXT
  }

  ghost function Grant(s: State, msg: ClientMsg, now: int, snap: Snapshot, rr: nat): LeaseResult {
    Acquire(snap, Request(CompatPort, Some(AskText(msg).keyword.traffic), WindowActive(s, now)), rr)
  }

  /** The text's attributes are those of its SQL. Stated for all strings so that a proof
      analyses text only where it mentions the analysis. */
  ghost predicate Faithful(msg: ClientMsg) {
    IsStatement(msg) ==> forall sql :: sql == msg.text.sql ==> msg.text == Analyze(sql)
  }

  lemma FaithfulText(msg: ClientMsg)
    requires Faithful(msg)
    ensures AskText(msg).keyword.traffic in {Read, Write}
    ensures IsStatement(msg) ==> !(msg.text.start && msg.text.rollback)
  {
    if IsStatement(msg) {
      assert msg.text == Analyze(msg.text.sql);
      BoundaryExclusive(msg.text.sql);
    }
  }

  lemma {:induction false} BoundaryStart(sql: string, word: string)
    requires word != "" && BoundaryWord(sql, word)
    ensures var s := Scanner.TrimSpace(ToLower(sql)); s != "" && s[0] == word[0]
  {
    var s := Scanner.TrimSpace(ToLower(sql));
    if Scanner.At(s, word + " ", 0) {
      assert s[0] == s[0..|word + " "|][0] == (word + " ")[0];
    }
  }

  lemma {:induction false} BoundaryExclusive(sql: string)
    ensures !(IsTransactionStart(sql) && IsRollback(sql))
  {
    if BoundaryWord(sql, "rollback") { BoundaryStart(sql, "rollback"); }
    if BoundaryWord(sql, "begin") { BoundaryStart(sql, "begin"); }
    if BoundaryWord(sql, "start transaction") { BoundaryStart(sql, "start transaction"); }
  }

  /** The request above is the one the router builds from the raw text. */
  lemma AskIsRouted(msg: ClientMsg, windowActive: bool)
    requires Faithful(msg)
    ensures Request(CompatPort, Some(AskText(msg).keyword.traffic), windowActive)
            == Classified(CompatPort, AskText(msg).sql, windowActive)
  {
    if IsStatement(msg) {
      assert msg.text == Analyze(msg.text.sql);
    } else {
      EmptyIsWrite(AskText(msg).sql);
    }
  }

  // ---------- runs ----------

  datatype Input =
    | FromClient(msg: ClientMsg, now: int, snap: Snapshot, rr: nat)
    | FromUpstream(reply: ServerMsg, now: int)
    | Released(now: int)

  /** What happened on the lease now held: how it was acquired; whether ROLLBACK text was
      processed and a ReadyForQuery E came through; whether a write was refused for being on a
      replica; and whether a statement, and one of class write, went through. */
  datatype LeaseInfo = LeaseInfo(
    role: Role, byWrite: bool, rollback: bool, failed: bool, refused: bool, spoke: bool, wrote: bool)

  datatype World = World(sess: State, lease: Option<LeaseInfo>, opens: seq<int>, clock: int, released: bool)

  ghost predicate Init(w: World) {
    && w.opens == [] && !w.released
    && ((w.sess == Initial(TransactionMode, None, w.sess.durationMs) && w.lease == None)
        // Session mode leases at start-up with the empty text, hence a primary.
        || (w.sess == Initial(SessionMode, Some(Primary), w.sess.durationMs)
            && w.lease == Some(LeaseInfo(Primary, false, false, false, false, false, false))))
  }

  /** Closing signals the release once. */
  ghost predicate Possible(w: World, i: Input) {
    && !w.sess.closed && w.clock <= i.now
    && match i
       case FromClient(msg, _, snap, _) => Faithful(msg) && snap.Valid()
       case FromUpstream(_, _) => w.sess.upstream.Some?
       case Released(_) => !w.released
  }

  ghost function Do(s: State, i: Input): Effect {
    match i
    case FromClient(msg, now, snap, rr) => OnClient(s, msg, Grant(s, msg, now, snap, rr))
    case FromUpstream(reply, now) => OnUpstream(s, reply, now)
    case Released(_) => OnRelease(s)
  }

  predicate RollbackText(i: Input) {
    i.FromClient? && IsStatement(i.msg) && i.msg.text.rollback
  }

  /** A statement outside a failed transaction that is not buffered. */
  ghost predicate Speaks(w: World, i: Input) {
    i.FromClient? && IsStatement(i.msg) && !Buffers(w.sess, i.msg) && w.sess.tx != InFailed
  }

  ghost predicate ClassWrite(w: World, i: Input) {
    i.FromClient? && IsStatement(i.msg) && SessionClass(w.sess, i.msg) == Write
  }

  /** A write on a replica lease, COMMIT and ROLLBACK apart. */
  ghost predicate OutOfPlace(w: World, i: Input, role: Role) {
    Speaks(w, i) && role == Replica && ClassWrite(w, i) && !i.msg.text.commit && !i.msg.text.rollback
  }

  ghost function TrackLease(w: World, i: Input, after: State): Option<LeaseInfo> {
    if after.upstream.None? then None
    else if w.lease.None? then
      Some(LeaseInfo(after.upstream.value, ClassWrite(w, i), RollbackText(i), false, false, Speaks(w, i), ClassWrite(w, i)))
    else
      var l := w.lease.value;
      var refused := OutOfPlace(w, i, l.role);
      Some(l.(rollback := l.rollback || RollbackText(i),
              failed := l.failed || (i.FromUpstream? && !w.sess.swallowing && i.reply == Ready(E)),
              refused := l.refused || refused,
              spoke := l.spoke || (Speaks(w, i) && !refused),
              wrote := l.wrote || (Speaks(w, i) && !refused && ClassWrite(w, i))))
  }

  ghost function Advance(w: World, i: Input, s: State): World {
    World(s, TrackLease(w, i, s), if s.openedAt != w.sess.openedAt then w.opens + [i.now] else w.opens, i.now,
          w.released || i.Released?)
  }

  ghost function Next(w: World, i: Input): World {
    Advance(w, i, Do(w.sess, i).state)
  }

  ghost predicate Run(w: World, ins: seq<Input>)
    decreases |ins|
  {
    ins == [] || (Possible(w, ins[0]) && Run(Next(w, ins[0]), ins[1..]))
  }

  ghost function End(w: World, ins: seq<Input>): World
    decreases |ins|
  {
    if ins == [] then w else End(Next(w, ins[0]), ins[1..])
  }

  // ---------- invariants ----------

  /** A replica lease is known to be one, and what is buffered is a transaction start. Before
      the close-time release, a failed transaction and a swallowed reply have an upstream. */
  ghost predicate Sound(s: State, released: bool) {
    && (s.upstream == Some(Replica) ==> s.leasedRole == Some(Replica))
    && (s.pendingBegin.Some? ==> s.pendingBegin.value.start)
    && (released || ((s.tx == InFailed ==> s.upstream.Some?) && (s.swallowing ==> s.upstream.Some?)))
  }

  /** The session's flags say what happened on the lease. */
  ghost predicate Tracked(w: World) {
    var s := w.sess;
    if w.lease.None? then
      s.upstream.None? && s.tx == Idle && s.firstClass != Write && s.leasedRole.None? && !s.awaitingRollback
    else
      var l := w.lease.value;
      && s.upstream == Some(l.role) && s.leasedRole == Some(l.role)
      && (s.firstClass == Write <==> l.byWrite && !l.failed)
      && (s.awaitingRollback ==> l.rollback)
      && (l.rollback && !s.awaitingRollback ==> l.failed || l.role == Replica)
      && (l.refused ==> l.role == Replica)
      && s.tx == TxOf(l)
  }

  /** The transaction state that a lease's history calls for. */
  ghost function TxOf(l: LeaseInfo): TxState {
    if l.failed || l.refused then InFailed else if l.wrote then InWrite else if l.spoke then InRead else Idle
  }

  ghost predicate Clocked(w: World) {
    && (forall i :: 0 <= i < |w.opens| ==> w.opens[i] <= w.clock)
    && (w.sess.openedAt.None? ==> w.opens == [])
    && (w.sess.openedAt.Some? ==> w.sess.openedAt.value in w.opens)
    && (w.sess.openedAt.Some? ==> forall i :: 0 <= i < |w.opens| ==> w.opens[i] <= w.sess.openedAt.value <= w.clock)
  }

  ghost predicate Inv(w: World) {
    && Clocked(w)
    && (w.sess.closed ||
        (Sound(w.sess, w.released) && (w.sess.mode == TransactionMode && !w.released ==> Tracked(w))))
  }

  lemma GrantNotReplica(s: State, msg: ClientMsg, now: int, snap: Snapshot, rr: nat)
    requires Faithful(msg) && snap.Valid()
    ensures var g := Grant(s, msg, now, snap, rr);
            && (g.Lease? && AskText(msg).keyword.traffic == Write ==> g.role == Primary)
            && (g.Lease? && WindowActive(s, now) ==> g.role != Replica)
  {
    FaithfulText(msg);
    CompatLease(snap, Request(CompatPort, Some(AskText(msg).keyword.traffic), WindowActive(s, now)), rr);
  }

  lemma {:induction false} SoundStatement(s: State, msg: ClientMsg, grant: LeaseResult, released: bool)
    requires Sound(s, released) && IsStatement(msg)
    ensures Sound(HandleStatement(s, msg, grant).state, released)
  {}

  lemma {:induction false} SoundSql(s: State, msg: ClientMsg, grant: LeaseResult, released: bool)
    requires Sound(s, released)
    ensures Sound(HandleSql(s, msg, grant).state, released)
  {
    if s.tx != InFailed && IsStatement(msg) { SoundStatement(s, msg, grant, released); }
  }

  lemma {:induction false} SoundConclude(s: State, verdict: Verdict, msg: ClientMsg, released: bool)
    requires Sound(s, released)
    ensures var s' := Conclude(s, verdict, msg).state; s'.closed || Sound(s', released)
  {}

  lemma {:induction false} SoundClient(s: State, msg: ClientMsg, grant: LeaseResult, released: bool)
    requires Sound(s, released)
    ensures var s' := OnClient(s, msg, grant).state; s'.closed || Sound(s', released)
  {
    SoundSql(s, msg, grant, released);
    var h := HandleSql(s, msg, grant);
    SoundConclude(h.state, h.verdict, msg, released);
  }

  lemma {:induction false} SoundUpstream(s: State, reply: ServerMsg, now: int, released: bool)
    requires Sound(s, released) && s.upstream.Some?
    ensures Sound(OnUpstream(s, reply, now).state, released)
  {}

  /** Everything the lease history depends on. */
  ghost predicate SameLease(s: State, t: State) {
    && t.upstream == s.upstream && t.tx == s.tx && t.firstClass == s.firstClass
    && t.leasedRole == s.leasedRole && t.awaitingRollback == s.awaitingRollback
  }

  lemma {:induction false} ConcludeKeeps(s: State, verdict: Verdict, msg: ClientMsg)
    ensures var s' := Conclude(s, verdict, msg).state;
            && s'.openedAt == s.openedAt
            && (s'.closed || SameLease(s, s'))
            && (s.mode == SessionMode ==> s'.mode == SessionMode)
  {}

  /** The part of the session that statement handling leaves alone. */
  ghost predicate SameRest(s: State, t: State) {
    t.openedAt == s.openedAt && t.mode == s.mode && t.closed == s.closed && t.pendingBegin == s.pendingBegin
  }

  lemma {:induction false} StatementKeeps(s: State, msg: ClientMsg, grant: LeaseResult)
    requires IsStatement(msg)
    ensures SameRest(s, HandleStatement(s, msg, grant).state)
  {}

  lemma {:induction false} SqlKeeps(s: State, msg: ClientMsg, grant: LeaseResult)
    ensures SameRest(s, HandleSql(s, msg, grant).state)
  {
    if s.tx != InFailed && IsStatement(msg) { StatementKeeps(s, msg, grant); }
  }

  lemma {:induction false} TrackedSql(w: World, msg: ClientMsg, grant: LeaseResult, i: Input)
    requires i.FromClient? && i.msg == msg && Sound(w.sess, false) && Tracked(w) && !Buffers(w.sess, msg)
    ensures var s := HandleSql(w.sess, msg, grant).state;
            Tracked(World(s, TrackLease(w, i, s), w.opens, w.clock, w.released))
  {
    if w.sess.tx != InFailed && IsStatement(msg) { TrackedStatement(w, msg, grant, i); }
  }

  lemma {:induction false} TrackedStatement(w: World, msg: ClientMsg, grant: LeaseResult, i: Input)
    requires i.FromClient? && i.msg == msg && IsStatement(msg) && w.sess.tx != InFailed && Tracked(w) && !Buffers(w.sess, msg)
    ensures var s := HandleStatement(w.sess, msg, grant).state;
            Tracked(World(s, TrackLease(w, i, s), w.opens, w.clock, w.released))
  {}

  lemma {:induction false} TrackedSame(w: World, i: Input, s: State, t: State)
    requires SameLease(s, t) && Tracked(World(s, TrackLease(w, i, s), w.opens, w.clock, w.released))
    ensures Tracked(World(t, TrackLease(w, i, t), w.opens, w.clock, w.released))
  {}

  lemma {:induction false} TrackedClient(w: World, msg: ClientMsg, grant: LeaseResult, i: Input)
    requires i.FromClient? && i.msg == msg && !w.sess.closed && Sound(w.sess, false) && Tracked(w)
    requires IsStatement(msg) ==> !(msg.text.start && msg.text.rollback)
    ensures var s := OnClient(w.sess, msg, grant).state;
            s.closed || Tracked(World(s, TrackLease(w, i, s), w.opens, w.clock, w.released))
  {
    if Buffers(w.sess, msg) {
      TrackedBuffer(w, msg, i);
    } else if !msg.Terminate? {
      var h := HandleSql(w.sess, msg, grant);
      var s := Conclude(h.state, h.verdict, msg).state;
      TrackedSql(w, msg, grant, i);
      ConcludeKeeps(h.state, h.verdict, msg);
      if !s.closed { TrackedSame(w, i, h.state, s); }
    }
  }

  lemma {:induction false} TrackedBuffer(w: World, msg: ClientMsg, i: Input)
    requires i.FromClient? && i.msg == msg && Tracked(w) && Buffers(w.sess, msg) && !msg.text.rollback
    ensures var s := w.sess.(pendingBegin := Some(msg.text));
            Tracked(World(s, TrackLease(w, i, s), w.opens, w.clock, w.released))
  {}

  lemma {:induction false} TrackedUpstream(w: World, i: Input)
    requires i.FromUpstream? && w.sess.upstream.Some? && w.sess.mode == TransactionMode && Tracked(w)
    ensures var s := OnUpstream(w.sess, i.reply, i.now).state;
            Tracked(World(s, TrackLease(w, i, s), w.opens, w.clock, w.released))
  {}

  /** A client message never touches the window, an upstream message may set it to now. */
  lemma {:induction false} WindowMoves(s: State, msg: ClientMsg, grant: LeaseResult, reply: ServerMsg, now: int)
    ensures OnClient(s, msg, grant).state.openedAt == s.openedAt
    ensures OnUpstream(s, reply, now).state.openedAt in {s.openedAt, Some(now)}
    ensures s.mode == SessionMode ==>
              OnClient(s, msg, grant).state.mode == SessionMode && OnUpstream(s, reply, now).state.mode == SessionMode
  {
    var h := HandleSql(s, msg, grant);
    SqlKeeps(s, msg, grant);
    ConcludeKeeps(h.state, h.verdict, msg);
  }

  /** What a step must show of the state it leads to. */
  lemma {:induction false} InvFrom(w: World, i: Input, s: State)
    requires Clocked(w) && w.clock <= i.now && s.openedAt in {w.sess.openedAt, Some(i.now)}
    requires s.closed || Sound(s, w.released || i.Released?)
    requires s.closed || s.mode == SessionMode || w.released || i.Released?
             || Tracked(World(s, TrackLease(w, i, s), w.opens, w.clock, w.released))
    ensures Inv(Advance(w, i, s))
  {}

  lemma {:induction false} InvClient(w: World, i: Input)
    requires Possible(w, i) && Inv(w) && i.FromClient?
    ensures Inv(Next(w, i))
  {
    var grant := Grant(w.sess, i.msg, i.now, i.snap, i.rr);
    FaithfulText(i.msg);
    SoundClient(w.sess, i.msg, grant, w.released);
    WindowMoves(w.sess, i.msg, grant, OtherServer, i.now);
    if w.sess.mode == TransactionMode && !w.released { TrackedClient(w, i.msg, grant, i); }
    InvFrom(w, i, OnClient(w.sess, i.msg, grant).state);
  }

  lemma {:induction false} InvUpstream(w: World, i: Input)
    requires Possible(w, i) && Inv(w) && i.FromUpstream?
    ensures Inv(Next(w, i))
  {
    SoundUpstream(w.sess, i.reply, i.now, w.released);
    WindowMoves(w.sess, Sync, Refused(""), i.reply, i.now);
    if w.sess.mode == TransactionMode && !w.released { TrackedUpstream(w, i); }
    InvFrom(w, i, OnUpstream(w.sess, i.reply, i.now).state);
  }

  lemma {:induction false} InvStep(w: World, i: Input)
    requires Possible(w, i) && Inv(w)
    ensures Inv(Next(w, i))
  {
    match i
    case FromClient(_, _, _, _) => InvClient(w, i);
    case FromUpstream(_, _) => InvUpstream(w, i);
    case Released(_) => InvFrom(w, i, OnRelease(w.sess).state);
  }

  lemma {:induction false} InvRun(w: World, ins: seq<Input>)
    requires Inv(w) && Run(w, ins)
    ensures Inv(End(w, ins))
    decreases |ins|
  {
    if ins != [] {
      InvStep(w, ins[0]);
      InvRun(Next(w, ins[0]), ins[1..]);
    }
  }

  // ---------- theorems ----------

  /** In every run, a message is forwarded without an upstream to send it to exactly when it
      is a ROLLBACK query in a transaction that had failed when the upstream went; and that
      takes the close-time release. */
  lemma {:induction false} UpstreamAlwaysThere(w: World, ins: seq<Input>, i: Input)
    requires Init(w) && Run(w, ins) && Possible(End(w, ins), i) && i.FromClient? && !i.msg.Terminate?
    ensures var s := End(w, ins).sess;
            var h := HandleSql(s, i.msg, Grant(s, i.msg, i.now, i.snap, i.rr));
            var stranded := s.tx == InFailed && s.upstream.None?;
            && (h.verdict == Forward && h.state.upstream.None? <==> stranded && i.msg.Query? && i.msg.text.rollback)
            && (stranded ==> End(w, ins).released)
  {
    InvRun(w, ins);
    var s := End(w, ins).sess;
    ForwardHasUpstream(s, i.msg, Grant(s, i.msg, i.now, i.snap, i.rr));
  }

  lemma {:induction false} ForwardHasUpstream(s: State, msg: ClientMsg, grant: LeaseResult)
    requires !msg.Terminate?
    ensures var h := HandleSql(s, msg, grant);
            h.verdict == Forward && h.state.upstream.None? <==>
            s.tx == InFailed && s.upstream.None? && msg.Query? && msg.text.rollback
  {}

  /** A statement the replica rule is about: a simple Query or unnamed Parse whose text
      classifies as a write. */
  ghost predicate IsWrite(msg: ClientMsg) {
    IsStatement(msg) && StatementName(msg) == "" && msg.text.keyword.traffic == Write
  }

  /** The exceptions of the rule: COMMIT, ROLLBACK and the replayed transaction start, each
      of them alone in its query string. */
  ghost predicate Exempt(o: Out)
    requires o.ToUpstream? && IsStatement(o.client)
  {
    Single(o.client.text.sql) && if o.replayed then o.client.text.start else o.client.text.commit || o.client.text.rollback
  }

  ghost predicate ReplicaSafe(out: seq<Out>) {
    forall o :: o in out && o.ToUpstream? && o.role == Replica && IsWrite(o.client) ==> Exempt(o)
  }

  predicate Buffers(s: State, msg: ClientMsg) {
    msg.Query? && msg.text.start && s.pendingBegin.None?
  }

  /** The message goes out on a replica lease: the one held, past the tests of a failed
      transaction and of a write on a replica, or one acquired for it. */
  ghost predicate GoesToReplica(s: State, msg: ClientMsg, grant: LeaseResult) {
    && !msg.Terminate? && !Buffers(s, msg)
    && if s.upstream.Some? then
         && s.upstream == Some(Replica)
         && if s.tx == InFailed then msg.Query? && msg.text.rollback
            else IsStatement(msg) && SessionClass(s, msg) == Write ==> msg.text.commit || msg.text.rollback
       else s.tx != InFailed && grant.Lease? && grant.role == Replica
  }

  lemma {:induction false} ForwardsToReplica(s: State, msg: ClientMsg, grant: LeaseResult)
    requires s.upstream == Some(Replica) ==> s.leasedRole == Some(Replica)
    requires !msg.Terminate? && !Buffers(s, msg)
    ensures var h := HandleSql(s, msg, grant);
            h.verdict == Forward && h.state.upstream == Some(Replica) <==> GoesToReplica(s, msg, grant)
  {}

  lemma {:induction false} SqlOut(s: State, msg: ClientMsg, grant: LeaseResult)
    ensures forall o :: o in HandleSql(s, msg, grant).out ==> o.ToClient?
  {}

  /** What is forwarded: the buffered transaction start, marked as a replay, and the message. */
  lemma {:induction false} DeliverOut(s: State, msg: ClientMsg, role: Role, o: Out)
    ensures o in Deliver(s, msg, role).out <==>
            || o == ToUpstream(msg, role, false)
            || (s.pendingBegin.Some? && o == ToUpstream(Query(s.pendingBegin.value), role, true))
  {}

  lemma {:induction false} ConcludeOut(h: Handled, msg: ClientMsg, o: Out)
    requires forall x :: x in h.out ==> x.ToClient?
    requires o.ToUpstream? && o.role == Replica
    ensures o in h.out + Conclude(h.state, h.verdict, msg).out <==>
            && h.verdict == Forward && h.state.upstream == Some(Replica)
            && (|| o == ToUpstream(msg, Replica, false)
                || (h.state.pendingBegin.Some? && o == ToUpstream(Query(h.state.pendingBegin.value), Replica, true)))
  {
    if h.verdict == Forward && h.state.upstream.Some? { DeliverOut(h.state, msg, h.state.upstream.value, o); }
  }

  /** Exactly what one client message sends on replica leases: itself and, before it, the
      buffered transaction start. */
  lemma {:induction false} SentOnReplica(s: State, msg: ClientMsg, grant: LeaseResult, o: Out)
    requires s.upstream == Some(Replica) ==> s.leasedRole == Some(Replica)
    requires o.ToUpstream? && o.role == Replica
    ensures o in OnClient(s, msg, grant).out <==>
            && GoesToReplica(s, msg, grant)
            && (|| o == ToUpstream(msg, Replica, false)
                || (s.pendingBegin.Some? && o == ToUpstream(Query(s.pendingBegin.value), Replica, true)))
  {
    if !msg.Terminate? && !Buffers(s, msg) {
      SqlOut(s, msg, grant);
      SqlKeeps(s, msg, grant);
      ForwardsToReplica(s, msg, grant);
      ConcludeOut(HandleSql(s, msg, grant), msg, o);
    }
  }

  lemma {:induction false} RepliesStayHere(s: State, reply: ServerMsg, now: int)
    ensures forall o :: o in OnUpstream(s, reply, now).out ==> o.ToClient?
  {}

  /** The message itself, or the transaction start buffered before it, is a batch. */
  ghost predicate CarriesBatch(s: State, msg: ClientMsg) {
    || (IsWrite(msg) && !Single(msg.text.sql))
    || (s.pendingBegin.Some? && IsWrite(Query(s.pendingBegin.value)) && !Single(s.pendingBegin.value.sql))
  }

  /** The step sends a batch on a replica lease. */
  ghost predicate BatchToReplica(s: State, i: Input) {
    i.FromClient? && GoesToReplica(s, i.msg, Grant(s, i.msg, i.now, i.snap, i.rr)) && CarriesBatch(s, i.msg)
  }

  /** Replica safety. In every run, a step keeps the rule if and only if it does not send a
      batch on a replica lease, behind COMMIT, ROLLBACK or the buffered transaction start.
      Without batches the rule holds: no simple Query or unnamed Parse whose text classifies
      as a write goes out on a replica lease but COMMIT, ROLLBACK and the replayed start. */
  lemma {:induction false} NoWriteOnReplica(w: World, ins: seq<Input>, i: Input)
    requires Init(w) && Run(w, ins) && Possible(End(w, ins), i)
    ensures ReplicaSafe(Do(End(w, ins).sess, i).out) <==> !BatchToReplica(End(w, ins).sess, i)
  {
    InvRun(w, ins);
    StepSafeExactly(End(w, ins), i);
  }

  lemma {:induction false} StepSafeExactly(w: World, i: Input)
    requires Inv(w) && Possible(w, i)
    ensures ReplicaSafe(Do(w.sess, i).out) <==> !BatchToReplica(w.sess, i)
  {
    match i
    case FromClient(msg, now, snap, rr) =>
      GrantNotReplica(w.sess, msg, now, snap, rr);
      SafeExactly(w.sess, msg, Grant(w.sess, msg, now, snap, rr));
    case FromUpstream(reply, now) => RepliesStayHere(w.sess, reply, now);
    case Released(_) =>
  }

  lemma {:induction false} SafeExactly(s: State, msg: ClientMsg, grant: LeaseResult)
    requires s.upstream == Some(Replica) ==> s.leasedRole == Some(Replica)
    requires s.pendingBegin.Some? ==> s.pendingBegin.value.start
    requires grant.Lease? && AskText(msg).keyword.traffic == Write ==> grant.role == Primary
    ensures ReplicaSafe(OnClient(s, msg, grant).out) <==> !(GoesToReplica(s, msg, grant) && CarriesBatch(s, msg))
  {
    var out := OnClient(s, msg, grant).out;
    forall o: Out | o.ToUpstream? && o.role == Replica
      ensures o in out <==>
              && GoesToReplica(s, msg, grant)
              && (|| o == ToUpstream(msg, Replica, false)
                  || (s.pendingBegin.Some? && o == ToUpstream(Query(s.pendingBegin.value), Replica, true)))
    {
      SentOnReplica(s, msg, grant, o);
    }
    WriteGoesOnlyAtEnd(s, msg, grant);
    assert GoesToReplica(s, msg, grant) ==> ToUpstream(msg, Replica, false) in out;
    assert GoesToReplica(s, msg, grant) && s.pendingBegin.Some? ==>
             ToUpstream(Query(s.pendingBegin.value), Replica, true) in out;
  }

  lemma {:induction false} WriteGoesOnlyAtEnd(s: State, msg: ClientMsg, grant: LeaseResult)
    requires grant.Lease? && AskText(msg).keyword.traffic == Write ==> grant.role == Primary
    ensures GoesToReplica(s, msg, grant) && IsWrite(msg) ==> msg.text.commit || msg.text.rollback
  {}

  /** A client whose transaction starts, COMMITs and ROLLBACKs are single statements never
      breaks the rule. */
  lemma {:induction false} SingleClientsAreSafe(w: World, ins: seq<Input>, i: Input)
    requires Init(w) && Run(w, ins) && Possible(End(w, ins), i)
    requires forall k :: k in ins + [i] ==> SendsSingle(k)
    ensures ReplicaSafe(Do(End(w, ins).sess, i).out)
  {
    NoWriteOnReplica(w, ins, i);
    assert forall k :: k in ins ==> k in ins + [i];
    BufferedSingle(w, ins);
    assert i in ins + [i];
    if i.FromClient? {
      var s := End(w, ins).sess;
      GrantNotReplica(s, i.msg, i.now, i.snap, i.rr);
      WriteGoesOnlyAtEnd(s, i.msg, Grant(s, i.msg, i.now, i.snap, i.rr));
    }
  }

  ghost predicate SendsSingle(i: Input) {
    i.FromClient? && IsStatement(i.msg) && (i.msg.text.start || i.msg.text.commit || i.msg.text.rollback) ==>
      Single(i.msg.text.sql)
  }

  lemma {:induction false} BufferedSingle(w: World, ins: seq<Input>)
    requires Run(w, ins) && (w.sess.pendingBegin.Some? ==> Single(w.sess.pendingBegin.value.sql))
    requires forall k :: k in ins ==> SendsSingle(k)
    ensures var s := End(w, ins).sess; s.pendingBegin.Some? ==> Single(s.pendingBegin.value.sql)
    decreases |ins|
  {
    if ins != [] {
      assert ins[0] in ins;
      BufferMoves(w.sess, ins[0]);
      assert forall k :: k in ins[1..] ==> k in ins;
      BufferedSingle(Next(w, ins[0]), ins[1..]);
    }
  }

  lemma {:induction false} BufferMoves(s: State, i: Input)
    ensures var t := Do(s, i).state;
            t.pendingBegin in {None, s.pendingBegin}
            || (i.FromClient? && i.msg.Query? && i.msg.text.start && t.pendingBegin == Some(i.msg.text))
  {
    if i.FromClient? {
      var grant := Grant(s, i.msg, i.now, i.snap, i.rr);
      var h := HandleSql(s, i.msg, grant);
      SqlKeeps(s, i.msg, grant);
      ConcludeBuffer(h.state, h.verdict, i.msg);
    }
  }

  lemma {:induction false} ConcludeBuffer(s: State, verdict: Verdict, msg: ClientMsg)
    ensures Conclude(s, verdict, msg).state.pendingBegin in {None, s.pendingBegin}
  {}

  /** Named statements. In every run, a named Parse whose text classifies as a write, and is
      neither COMMIT nor ROLLBACK, goes out on a replica lease if and only if that lease is
      held, the transaction neither failed nor wrote, and the name is cached with another
      class. */
  lemma {:induction false} NamedParseOnReplica(w: World, ins: seq<Input>, i: Input, name: string, text: Text)
    requires Init(w) && Run(w, ins) && Possible(End(w, ins), i) && i.FromClient? && i.msg == Parse(name, text)
    requires name != "" && text.keyword.traffic == Write && !text.commit && !text.rollback
    ensures var s := End(w, ins).sess;
            ToUpstream(i.msg, Replica, false) in Do(s, i).out <==>
            && s.upstream == Some(Replica) && s.tx !in {InFailed, InWrite}
            && name in s.prepared && s.prepared[name].traffic != Write
  {
    InvRun(w, ins);
    var s := End(w, ins).sess;
    var grant := Grant(s, i.msg, i.now, i.snap, i.rr);
    GrantNotReplica(s, i.msg, i.now, i.snap, i.rr);
    SentOnReplica(s, i.msg, grant, ToUpstream(i.msg, Replica, false));
  }

  /** Read your writes. In every run, a lease requested less than DurationMs after any
      opening of the window is refused or goes to a node not seen as replica, and the
      remaining time reported to the router lies between 1 and DurationMs. */
  lemma {:induction false} ReadYourWrites(w: World, ins: seq<Input>, i: Input, openTime: int)
    requires Init(w) && Run(w, ins) && Possible(End(w, ins), i) && i.FromClient?
    requires openTime in End(w, ins).opens
    requires i.now - openTime < End(w, ins).sess.durationMs * NANOS_PER_MS
    ensures var s := End(w, ins).sess;
            var g := Grant(s, i.msg, i.now, i.snap, i.rr);
            && WindowActive(s, i.now)
            && 1 <= RemainingMs(s, i.now) <= s.durationMs
            && (g.Lease? ==> g.role != Replica)
  {
    InvRun(w, ins);
    GrantNotReplica(End(w, ins).sess, i.msg, i.now, i.snap, i.rr);
    var s := End(w, ins).sess;
    var elapsed := i.now - s.openedAt.value;
    assert 0 <= elapsed <= i.now - openTime;
  }

  /** The window exactly. In every run it is active at a later time if and only if some opening
      lies less than DurationMs back; and what it reports as remaining is the rest of
      DurationMs since the latest opening in milliseconds, rounded up, or else 0. */
  lemma {:induction false} WindowExactly(w: World, ins: seq<Input>, now: int)
    requires Init(w) && Run(w, ins) && End(w, ins).clock <= now && !End(w, ins).sess.closed
    ensures var v := End(w, ins);
            var left := if v.sess.openedAt.Some? then v.sess.durationMs * NANOS_PER_MS - (now - v.sess.openedAt.value) else 0;
            && (WindowActive(v.sess, now) <==> exists t :: t in v.opens && now - t < v.sess.durationMs * NANOS_PER_MS)
            && (v.opens != [] ==> && v.sess.openedAt.Some? && v.sess.openedAt.value in v.opens
                                  && forall t :: t in v.opens ==> t <= v.sess.openedAt.value)
            && (if WindowActive(v.sess, now)
                then (RemainingMs(v.sess, now) - 1) * NANOS_PER_MS < left <= RemainingMs(v.sess, now) * NANOS_PER_MS
                else RemainingMs(v.sess, now) == 0)
  {
    InvRun(w, ins);
    var v := End(w, ins);
    if v.sess.openedAt.Some? {
      assert v.sess.openedAt.value in v.opens && v.sess.openedAt.value <= now;
      OpensBefore(v.opens, v.sess.openedAt.value);
    }
  }

  lemma {:induction false} OpensBefore(opens: seq<int>, latest: int)
    requires forall i :: 0 <= i < |opens| ==> opens[i] <= latest
    ensures forall t :: t in opens ==> t <= latest
  {}

  /** The transaction state exactly. In every transaction-mode run before the close-time
      release: idle without a lease; with one, failed once a ReadyForQuery E came through or a
      write was refused on a replica, else in a write once a statement of class write went
      through, else in a read once any did. */
  lemma {:induction false} TransactionStateExactly(w: World, ins: seq<Input>)
    requires Init(w) && Run(w, ins) && !End(w, ins).sess.closed
    requires End(w, ins).sess.mode == TransactionMode && !End(w, ins).released
    ensures var v := End(w, ins);
            && (v.lease.None? <==> v.sess.upstream.None?)
            && v.sess.tx == if v.lease.None? then Idle else TxOf(v.lease.value)
  {
    InvRun(w, ins);
  }

  // ---------- pinning ----------

  /** A query with session-level state goes out. */
  ghost predicate PinGoesOut(out: seq<Out>) {
    exists o :: o in out && o.ToUpstream? && !o.replayed && o.client.Query? && o.client.text.pins
  }

  lemma {:induction false} ConcludePins(h: Handled, msg: ClientMsg)
    requires forall o :: o in h.out ==> o.ToClient?
    ensures var e := Conclude(h.state, h.verdict, msg);
            e.state.closed || (e.state.mode == SessionMode <==> h.state.mode == SessionMode || PinGoesOut(h.out + e.out))
  {
    var e := Conclude(h.state, h.verdict, msg);
    if h.verdict == Forward && h.state.upstream.Some? {
      var role := h.state.upstream.value;
      var o := ToUpstream(msg, role, false);
      DeliverOut(h.state, msg, role, o);
      assert o in h.out + e.out;
      if PinGoesOut(h.out + e.out) {
        var p :| p in h.out + e.out && p.ToUpstream? && !p.replayed && p.client.Query? && p.client.text.pins;
        DeliverOut(h.state, msg, role, p);
      }
    }
  }

  lemma {:induction false} PinStep(s: State, i: Input)
    ensures var e := Do(s, i);
            e.state.closed || (e.state.mode == SessionMode <==> s.mode == SessionMode || PinGoesOut(e.out))
  {
    match i
    case FromClient(msg, now, snap, rr) =>
      var grant := Grant(s, msg, now, snap, rr);
      if !msg.Terminate? && !Buffers(s, msg) {
        SqlOut(s, msg, grant);
        SqlKeeps(s, msg, grant);
        ConcludePins(HandleSql(s, msg, grant), msg);
      }
    case FromUpstream(reply, now) => RepliesStayHere(s, reply, now);
    case Released(_) =>
  }

  ghost predicate EverPinned(w: World, ins: seq<Input>)
    decreases |ins|
  {
    ins != [] && (PinGoesOut(Do(w.sess, ins[0]).out) || EverPinned(Next(w, ins[0]), ins[1..]))
  }

  /** In every run the session is in session mode exactly when it began so or a query with
      session-level state has gone out. */
  lemma {:induction false} PinnedExactly(w: World, ins: seq<Input>)
    requires Run(w, ins) && !End(w, ins).sess.closed
    ensures End(w, ins).sess.mode == SessionMode <==> w.sess.mode == SessionMode || EverPinned(w, ins)
    decreases |ins|
  {
    if ins != [] {
      PinStep(w.sess, ins[0]);
      PinnedExactly(Next(w, ins[0]), ins[1..]);
    }
  }

  lemma {:induction false} SqlHolds(s: State, msg: ClientMsg, grant: LeaseResult)
    requires s.upstream.Some?
    ensures HandleSql(s, msg, grant).state.upstream == s.upstream
  {}

  /** And in session mode a lease is kept: until the release or the end of the session no
      message gives it up or changes it. */
  lemma {:induction false} SessionModeKeepsLease(s: State, i: Input)
    requires s.mode == SessionMode && s.upstream.Some? && !i.Released?
    ensures Do(s, i).state.closed || Do(s, i).state.upstream == s.upstream
  {
    if i.FromClient? {
      var grant := Grant(s, i.msg, i.now, i.snap, i.rr);
      SqlHolds(s, i.msg, grant);
      var h := HandleSql(s, i.msg, grant);
      ConcludeKeeps(h.state, h.verdict, i.msg);
    }
  }

  // ---------- failed transactions ----------

  ghost function Count(out: seq<Out>, m: ServerMsg): nat {
    multiset(out)[ToClient(m)]
  }

  /** In a failed transaction, until ROLLBACK: every Query and every Sync gets exactly one
      ReadyForQuery, of status E, a Query one error before it, every other message nothing; and
      nothing goes upstream or changes. */
  lemma {:induction false} FailedTransactionAnswers(s: State, msg: ClientMsg, grant: LeaseResult)
    requires s.tx == InFailed && !msg.Terminate? && !Buffers(s, msg) && !(msg.Query? && msg.text.rollback)
    ensures var e := OnClient(s, msg, grant);
            var answers, errors := if msg.Query? || msg.Sync? then 1 else 0, if msg.Query? then 1 else 0;
            && e.state == s && |e.out| == answers + errors
            && Count(e.out, Ready(E)) == answers && Count(e.out, Error("25P02")) == errors
            && (errors == 1 ==> e.out[0] == ToClient(Error("25P02")))
  {}

  /** A write out of place on a replica lease is answered by one error, and by a ReadyForQuery
      only if it is a Query, since after Parse the client waits for its Sync; the transaction
      has then failed. */
  lemma {:induction false} RefusalAnswers(s: State, msg: ClientMsg, grant: LeaseResult)
    requires s.upstream == Some(Replica) && s.leasedRole == Some(Replica) && s.tx != InFailed && !Buffers(s, msg)
    requires IsStatement(msg) && SessionClass(s, msg) == Write && !msg.text.commit && !msg.text.rollback
    ensures var e := OnClient(s, msg, grant);
            && e.state.tx == InFailed && e.state.upstream == s.upstream
            && |e.out| == (if msg.Query? then 2 else 1) && e.out[0] == ToClient(Error("25006"))
            && Count(e.out, Ready(E)) == if msg.Query? then 1 else 0
  {
    RefusedOutright(s, msg, grant);
    var h := HandleSql(s, msg, grant);
    assert h.out + [] == h.out;
  }

  lemma {:induction false} RefusedOutright(s: State, msg: ClientMsg, grant: LeaseResult)
    requires s.upstream == Some(Replica) && s.leasedRole == Some(Replica) && s.tx != InFailed
    requires IsStatement(msg) && SessionClass(s, msg) == Write && !msg.text.commit && !msg.text.rollback
    ensures var h := HandleSql(s, msg, grant);
            && h.verdict == Consumed && h.state.tx == InFailed && h.state.upstream == s.upstream
            && h.out == if msg.Query? then [ToClient(Error("25006")), ToClient(Ready(E))] else [ToClient(Error("25006"))]
  {}

  /** Write text that is no boundary never goes out on a replica lease, in no run. */
  lemma {:induction false} WriteStaysOff(w: World, ins: seq<Input>, i: Input, replayed: bool)
    requires Init(w) && Run(w, ins) && Possible(End(w, ins), i) && i.FromClient? && IsWrite(i.msg)
    requires !i.msg.text.start && !i.msg.text.commit && !i.msg.text.rollback
    ensures ToUpstream(i.msg, Replica, replayed) !in Do(End(w, ins).sess, i).out
  {
    InvRun(w, ins);
    var s := End(w, ins).sess;
    var grant := Grant(s, i.msg, i.now, i.snap, i.rr);
    GrantNotReplica(s, i.msg, i.now, i.snap, i.rr);
    SentOnReplica(s, i.msg, grant, ToUpstream(i.msg, Replica, replayed));
    WriteGoesOnlyAtEnd(s, i.msg, grant);
  }

  /** In transaction mode the window opens, at the moment the lease ends, exactly when the
      lease was acquired on a primary by a statement the session classified as a write, and
      since then neither ROLLBACK text was processed nor a ReadyForQuery E came through. */
  lemma {:induction false} WindowOpensExactly(w: World, ins: seq<Input>, i: Input)
    requires Init(w) && Run(w, ins) && Possible(End(w, ins), i)
    requires End(w, ins).sess.mode == TransactionMode && !End(w, ins).released
    ensures var v := End(w, ins);
            var after := Do(v.sess, i).state.openedAt;
            if i.FromUpstream? && i.reply == Ready(I) && !v.sess.swallowing then
              && v.lease.Some?
              && var l := v.lease.value;
                 after == if l.role == Primary && l.byWrite && !l.rollback && !l.failed then Some(i.now) else v.sess.openedAt
            else after == v.sess.openedAt
  {
    InvRun(w, ins);
    match i
    case FromClient(msg, now, snap, rr) =>
      WindowMoves(End(w, ins).sess, msg, Grant(End(w, ins).sess, msg, now, snap, rr), OtherServer, now);
    case FromUpstream(reply, now) =>
      WindowAtReady(End(w, ins), i);
    case Released(_) =>
  }

  lemma {:induction false} WindowAtReady(v: World, i: Input)
    requires i.FromUpstream? && v.sess.upstream.Some? && v.sess.mode == TransactionMode && Tracked(v)
    ensures var after := OnUpstream(v.sess, i.reply, i.now).state.openedAt;
            if i.reply == Ready(I) && !v.sess.swallowing then
              && v.lease.Some?
              && var l := v.lease.value;
                 after == if l.role == Primary && l.byWrite && !l.rollback && !l.failed then Some(i.now) else v.sess.openedAt
            else after == v.sess.openedAt
  {}
}
