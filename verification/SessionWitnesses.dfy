/** Runs that reach the exceptions of the compat session: a batch on a replica behind BEGIN or
    COMMIT, a renamed statement on a replica, and a ROLLBACK stranded by the close-time
    release. Each starts in an initial state and uses the analysis of real SQL text. */
module SessionWitnesses {
  import opened Options
  import opened Classifier
  import opened Topology
  import opened Decisions
  import opened Routing
  import opened Session
  import opened SessionSafety

  // ---------- texts ----------

  /** The analysis of a text whose first word is `word`. Stated for all strings so that a
      proof analyses text only where it mentions the analysis. */
  ghost predicate Said(text: Text, word: string, rest: string) {
    forall sql :: sql == word + " " + rest ==> text == Analyze(sql)
  }

  lemma {:induction false} SaidText(text: Text, word: string, rest: string, sql: string)
    requires Said(text, word, rest) && sql == word + " " + rest
    ensures text.sql == sql && text.keyword == KeywordClass(sql)
    ensures text.start == IsTransactionStart(sql) && text.commit == IsCommit(sql) && text.rollback == IsRollback(sql)
  {
    assert text == Analyze(sql);
  }

  lemma {:induction false} SaidIsFaithful(text: Text, word: string, rest: string, name: string)
    requires Said(text, word, rest)
    ensures Faithful(Query(text)) && Faithful(Parse(name, text))
  {
    SaidText(text, word, rest, word + " " + rest);
  }

  lemma {:induction false} SaidClass(text: Text, word: string, rest: string)
    requires Said(text, word, rest)
    requires word != [] && |word| < KEYWORD_CAP && LowerCase(word) && word != "explain"
    ensures text.keyword.traffic == if word in {"select", "show", "fetch", "values"} then Read else Write
  {
    assert ToLower(word) == word;
    assert word + (" " + rest) == word + " " + rest;
    FirstWordDecides(word, " " + rest);
    SaidText(text, word, rest, word + " " + rest);
  }

  lemma {:induction false} SaidBoundary(text: Text, word: string, rest: string)
    requires Said(text, word, rest) && word != [] && LowerCase(word)
    ensures word == "begin" ==> text.start
    ensures word == "commit" ==> text.commit
    ensures word == "rollback" ==> text.rollback
  {
    WordIsPhrase(word);
    BoundaryBatch(word, rest);
    SaidText(text, word, rest, word + " " + rest);
  }

  lemma {:induction false} NotStart(text: Text, word: string, rest: string)
    requires Said(text, word, rest) && |word| >= 2 && LowerCase(word)
    requires word[0] != 'b' && (word[0] != 's' || word[1] != 't')
    ensures !text.start
  {
    var begin, start := "begin", "start transaction";
    assert begin[0] == 'b' && start[0] == 's' && start[1] == 't';
    OtherWord(word, rest, begin);
    OtherWord(word, rest, start);
    SaidText(text, word, rest, word + " " + rest);
  }

  lemma {:induction false} NotEnd(text: Text, word: string, rest: string)
    requires Said(text, word, rest) && word != [] && LowerCase(word)
    ensures word[0] != 'c' ==> !text.commit
    ensures word[0] != 'r' ==> !text.rollback
  {
    var commit, rollback := "commit", "rollback";
    assert commit[0] == 'c' && rollback[0] == 'r';
    if word[0] != 'c' { OtherWord(word, rest, commit); }
    if word[0] != 'r' { OtherWord(word, rest, rollback); }
    SaidText(text, word, rest, word + " " + rest);
  }

  /** Text that goes on after a semicolon. */
  lemma {:induction false} SaidBatch(text: Text, word: string, more: string)
    requires Said(text, word, ";" + more) && LowerCase(word)
    requires more != [] && !Scanner.IsSpace(more[0]) && more[0] != ';'
    ensures !Single(text.sql)
  {
    assert (word + " ") + (";" + more) == (word + " ") + ";" + more;
    BatchNotSingle(word + " ", more);
    SaidText(text, word, ";" + more, word + " " + (";" + more));
  }

  // ---------- a cluster of one node ----------

  ghost function OneNode(id: NodeId, role: Role): Snapshot {
    Snapshot(Observe(Topo(map[id := Unprobed()], "", 2000, 5000, 2000), SawRole(id, role)), None,
             PolicyNames("", "", ""), [id], 0, map[id := Connected])
  }

  lemma {:induction false} OneNodeGrants(s: State, msg: ClientMsg, now: int, id: NodeId, role: Role, rr: nat)
    requires !WindowActive(s, now)
    requires AskText(msg).keyword.traffic == if role == Replica then Read else Write
    requires role != RoleUnknown
    ensures OneNode(id, role).Valid() && Grant(s, msg, now, OneNode(id, role), rr) == Lease(id, role)
  {
    var snap := OneNode(id, role);
    var req := Request(CompatPort, Some(AskText(msg).keyword.traffic), false);
    assert View(snap.topo, id, 0).observedRole == role && View(snap.topo, id, 0).systemId == "";
    assert IsEligible(snap, req, id);
    assert snap.order[..0] == [];
    assert EligibleIds(snap, req, snap.order) == [id];
  }

  // ---------- runs ----------

  ghost function Start(ms: int, t: int): World {
    World(Initial(TransactionMode, None, ms), None, [], t, false)
  }

  lemma {:induction false} OneStep(w: World, i: Input)
    requires Possible(w, i)
    ensures Run(w, [i]) && End(w, [i]) == Next(w, i)
  {
    assert [i][1..] == [];
    assert End(Next(w, i), []) == Next(w, i);
  }

  lemma {:induction false} MoreSteps(w: World, i: Input, ins: seq<Input>)
    requires Possible(w, i) && Run(Next(w, i), ins)
    ensures Run(w, [i] + ins) && End(w, [i] + ins) == End(Next(w, i), ins)
  {
    assert ([i] + ins)[1..] == ins;
  }

  /** Acquiring a lease with the first statement. */
  lemma {:induction false} FirstStatement(ms: int, t: int, msg: ClientMsg, id: NodeId, role: Role)
    requires Faithful(msg) && IsStatement(msg) && !msg.text.start && !msg.text.rollback && role != RoleUnknown
    requires msg.text.keyword.traffic == if role == Replica then Read else Write
    ensures var w, i := Start(ms, t), FromClient(msg, t, OneNode(id, role), 0);
            && Init(w) && Possible(w, i)
            && var s := Next(w, i).sess;
               && s.upstream == Some(role) && s.leasedRole == Some(role) && s.pendingBegin.None? && !s.closed
               && s.tx == (if role == Replica then InRead else InWrite) && !s.swallowing && (msg.Parse? || !msg.text.pins ==> s.mode == TransactionMode)
               && (msg.Parse? && msg.name != "" ==> s.prepared == map[msg.name := msg.text.keyword])
               && !Next(w, i).released && Next(w, i).clock == t
  {
    OneNodeGrants(Start(ms, t).sess, msg, t, id, role, 0);
  }

  /** After "begin ;" and a statement, a read sends the whole batch to the replica. */
  lemma {:induction false} BatchBehindBegin(ms: int, t: int, batch: Text, more: string, read: Text, c: string, id: NodeId)
    requires Said(batch, "begin", ";" + more) && more != [] && !Scanner.IsSpace(more[0]) && more[0] != ';'
    requires Said(read, "select", c)
    ensures var w, snap := Start(ms, t), OneNode(id, Replica);
            var ins, i := [FromClient(Query(batch), t, snap, 0)], FromClient(Query(read), t, snap, 0);
            && Init(w) && Run(w, ins) && Possible(End(w, ins), i) && IsWrite(Query(batch))
            && ToUpstream(Query(batch), Replica, true) in Do(End(w, ins).sess, i).out
            && !ReplicaSafe(Do(End(w, ins).sess, i).out)
  {
    SaidIsFaithful(batch, "begin", ";" + more, "");
    SaidClass(batch, "begin", ";" + more);
    SaidBoundary(batch, "begin", ";" + more);
    SaidBatch(batch, "begin", more);
    SelectRead(read, c, "");
    BegunThenRead(ms, t, batch, read, id);
  }

  lemma {:induction false} SelectRead(read: Text, c: string, name: string)
    requires Said(read, "select", c)
    ensures Faithful(Query(read)) && Faithful(Parse(name, read))
    ensures read.keyword.traffic == Read && !read.start && !read.rollback
  {
    var word := "select";
    assert word[0] == 's' && word[1] == 'e';
    SaidIsFaithful(read, word, c, name);
    SaidClass(read, word, c);
    NotStart(read, word, c);
    NotEnd(read, word, c);
  }

  lemma {:induction false} InsertWrite(write: Text, c: string, name: string)
    requires Said(write, "insert", c)
    ensures Faithful(Query(write)) && Faithful(Parse(name, write))
    ensures write.keyword.traffic == Write && !write.start && !write.commit && !write.rollback
  {
    var word := "insert";
    assert word[0] == 'i';
    SaidIsFaithful(write, word, c, name);
    SaidClass(write, word, c);
    NotStart(write, word, c);
    NotEnd(write, word, c);
  }

  lemma {:induction false} BegunThenRead(ms: int, t: int, batch: Text, read: Text, id: NodeId)
    requires Faithful(Query(batch)) && batch.start && batch.keyword.traffic == Write && !Single(batch.sql)
    requires Faithful(Query(read)) && !read.start && read.keyword.traffic == Read
    ensures var w, snap := Start(ms, t), OneNode(id, Replica);
            var ins, i := [FromClient(Query(batch), t, snap, 0)], FromClient(Query(read), t, snap, 0);
            && Init(w) && Run(w, ins) && Possible(End(w, ins), i) && IsWrite(Query(batch))
            && ToUpstream(Query(batch), Replica, true) in Do(End(w, ins).sess, i).out
            && !ReplicaSafe(Do(End(w, ins).sess, i).out)
  {
    var w, snap := Start(ms, t), OneNode(id, Replica);
    var first, i := FromClient(Query(batch), t, snap, 0), FromClient(Query(read), t, snap, 0);
    var s := w.sess.(pendingBegin := Some(batch));
    OneNodeGrants(s, Query(read), t, id, Replica, 0);
    OneStep(w, first);
    assert Next(w, first).sess == s;
    SentOnReplica(s, Query(read), Grant(s, Query(read), t, snap, 0), ToUpstream(Query(batch), Replica, true));
  }

  /** On a replica lease "commit ;" takes the statement behind it along. */
  lemma {:induction false} BatchBehindCommit(ms: int, t: int, read: Text, c: string, batch: Text, more: string, id: NodeId)
    requires Said(batch, "commit", ";" + more) && more != [] && !Scanner.IsSpace(more[0]) && more[0] != ';'
    requires Said(read, "select", c)
    ensures var w, snap := Start(ms, t), OneNode(id, Replica);
            var ins, i := [FromClient(Query(read), t, snap, 0)], FromClient(Query(batch), t, snap, 0);
            && Init(w) && Run(w, ins) && Possible(End(w, ins), i) && IsWrite(Query(batch))
            && ToUpstream(Query(batch), Replica, false) in Do(End(w, ins).sess, i).out
            && !ReplicaSafe(Do(End(w, ins).sess, i).out)
  {
    var word := "commit";
    assert word[0] == 'c';
    SaidIsFaithful(batch, word, ";" + more, "");
    SaidClass(batch, word, ";" + more);
    SaidBoundary(batch, word, ";" + more);
    NotStart(batch, word, ";" + more);
    SaidBatch(batch, word, more);
    SelectRead(read, c, "");
    ReadThenSend(ms, t, Query(read), Query(batch), id);
  }

  lemma {:induction false} ReadThenSend(ms: int, t: int, read: ClientMsg, msg: ClientMsg, id: NodeId)
    requires Faithful(read) && IsStatement(read) && !read.text.start && !read.text.rollback && read.text.keyword.traffic == Read
    requires Faithful(msg) && IsStatement(msg) && !msg.text.start
    requires msg.text.commit || msg.text.rollback
             || (read.Parse? && msg.Parse? && read.name == msg.name && msg.name != "")
    ensures var w, snap := Start(ms, t), OneNode(id, Replica);
            var ins, i := [FromClient(read, t, snap, 0)], FromClient(msg, t, snap, 0);
            && Init(w) && Run(w, ins) && Possible(End(w, ins), i)
            && ToUpstream(msg, Replica, false) in Do(End(w, ins).sess, i).out
  {
    var w, snap := Start(ms, t), OneNode(id, Replica);
    var first, i := FromClient(read, t, snap, 0), FromClient(msg, t, snap, 0);
    FirstStatement(ms, t, read, id, Replica);
    OneStep(w, first);
    var s := Next(w, first).sess;
    SentOnReplica(s, msg, Grant(s, msg, t, snap, 0), ToUpstream(msg, Replica, false));
  }

  /** A name first parsed with a read and then with a write reaches the replica. */
  lemma {:induction false} RenamedParse(ms: int, t: int, name: string, read: Text, c: string, write: Text, d: string, id: NodeId)
    requires name != "" && Said(read, "select", c) && Said(write, "insert", d)
    ensures var w, snap := Start(ms, t), OneNode(id, Replica);
            var ins, i := [FromClient(Parse(name, read), t, snap, 0)], FromClient(Parse(name, write), t, snap, 0);
            && Init(w) && Run(w, ins) && Possible(End(w, ins), i) && write.keyword.traffic == Write
            && ToUpstream(Parse(name, write), Replica, false) in Do(End(w, ins).sess, i).out
  {
    SelectRead(read, c, name);
    InsertWrite(write, d, name);
    ReadThenSend(ms, t, Parse(name, read), Parse(name, write), id);
  }

  /** A write fails, the closing session releases the upstream, and the ROLLBACK taken next
      has no upstream to go to. */
  lemma {:induction false} StrandedRollback(ms: int, t: int, write: Text, c: string, rollback: Text, d: string, id: NodeId)
    requires Said(write, "insert", c) && Said(rollback, "rollback", d) && !write.pins
    ensures var w, snap := Start(ms, t), OneNode(id, Primary);
            var ins := [FromClient(Query(write), t, snap, 0), FromUpstream(Ready(E), t), Released(t)];
            var i := FromClient(Query(rollback), t, snap, 0);
            && Init(w) && Run(w, ins) && Possible(End(w, ins), i)
            && var h := HandleSql(End(w, ins).sess, i.msg, Grant(End(w, ins).sess, i.msg, t, snap, 0));
               h.verdict == Forward && h.state.upstream.None?
  {
    InsertWrite(write, c, "");
    SaidIsFaithful(rollback, "rollback", d, "");
    SaidBoundary(rollback, "rollback", d);
    FailThenRelease(ms, t, Query(write), Query(rollback), id);
  }

  lemma {:induction false} FailThenRelease(ms: int, t: int, write: ClientMsg, rollback: ClientMsg, id: NodeId)
    requires Faithful(write) && IsStatement(write) && !write.text.start && !write.text.rollback && !write.text.pins
    requires write.text.keyword.traffic == Write && Faithful(rollback) && rollback.Query? && rollback.text.rollback
    ensures var w, snap := Start(ms, t), OneNode(id, Primary);
            var ins := [FromClient(write, t, snap, 0), FromUpstream(Ready(E), t), Released(t)];
            var i := FromClient(rollback, t, snap, 0);
            && Init(w) && Run(w, ins) && Possible(End(w, ins), i)
            && var h := HandleSql(End(w, ins).sess, rollback, Grant(End(w, ins).sess, rollback, t, snap, 0));
               h.verdict == Forward && h.state.upstream.None?
  {
    var w, snap := Start(ms, t), OneNode(id, Primary);
    var a, b, c := FromClient(write, t, snap, 0), FromUpstream(Ready(E), t), Released(t);
    FirstStatement(ms, t, write, id, Primary);
    var w1, w2 := Next(w, a), Next(Next(w, a), b);
    FailedBy(w1.sess, t);
    OneStep(w2, c);
    MoreSteps(w1, b, [c]);
    MoreSteps(w, a, [b] + [c]);
    assert [a] + ([b] + [c]) == [a, b, c];
    ForwardHasUpstream(Next(w2, c).sess, rollback, Grant(Next(w2, c).sess, rollback, t, snap, 0));
  }

  lemma {:induction false} FailedBy(s: State, now: int)
    requires !s.swallowing && s.mode == TransactionMode
    ensures OnUpstream(s, Ready(E), now).state == s.(tx := InFailed, firstClass := Unknown)
  {}
}
