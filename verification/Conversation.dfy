/** A simple-query client and a backend around the compat session: every Query gets exactly
    one ReadyForQuery or ends the session with FATAL. Leases are arbitrary. */
module Conversation {
  import opened Options
  import opened Classifier
  import opened Decisions
  import opened Routing
  import opened Session
  import opened Topology

  /** A query sent upstream and not answered yet. */
  datatype Sent = Begin | Plain

  datatype Conv = Conv(
    sess: State,
    last: Status,             // the last status the client saw
    waiting: bool,            // the client has asked and waits for a status
    outstanding: seq<Sent>,   // on the held lease, oldest first
    backend: Status,          // of the held lease's connection
    asked: nat,
    answered: nat)

  datatype Event =
    | Ask(text: Text, grant: LeaseResult)
    | Answer(status: Status, now: int)
    | Chatter(m: ServerMsg, now: int)

  ghost predicate Init(c: Conv) {
    && (c.sess == Initial(TransactionMode, None, c.sess.durationMs)
        || exists role :: c.sess == Initial(SessionMode, Some(role), c.sess.durationMs))
    && c.last == I && !c.waiting && c.outstanding == [] && c.backend == I && c.asked == c.answered
  }

  /** The client sends a Query only after a ReadyForQuery. The backend answers each Query with
      one ReadyForQuery; BEGIN leaves it in a transaction, or in the failed one it was in. */
  ghost predicate Possible(c: Conv, e: Event) {
    && !c.sess.closed
    && match e
       case Ask(_, _) => !c.waiting
       case Answer(status, _) =>
         && c.sess.upstream.Some? && c.outstanding != []
         && (c.outstanding[0] == Begin ==> status == if c.backend == E then E else T)
       case Chatter(m, _) => c.sess.upstream.Some? && c.outstanding != [] && !m.Ready?
  }

  function Statuses(out: seq<Out>): seq<Status> {
    if out == [] then []
    else StatusOf(out[0]) + Statuses(out[1..])
  }

  function Forwarded(out: seq<Out>): seq<Sent> {
    if out == [] then []
    else SentOf(out[0]) + Forwarded(out[1..])
  }

  ghost function Effects(c: Conv, e: Event): Effect {
    match e
    case Ask(text, grant) => OnClient(c.sess, Query(text), grant)
    case Answer(status, now) => OnUpstream(c.sess, Ready(status), now)
    case Chatter(m, now) => OnUpstream(c.sess, m, now)
  }

  ghost function Advance(c: Conv, e: Event, f: Effect): Conv
    requires e.Answer? ==> c.outstanding != []
  {
    var seen := Statuses(f.out);
    var queue := if e.Answer? then c.outstanding[1..] else c.outstanding;
    Conv(
      f.state,
      if seen == [] then c.last else seen[|seen| - 1],
      (c.waiting || e.Ask?) && seen == [],
      if f.state.upstream.None? then [] else queue + Forwarded(f.out),
      if e.Answer? then e.status else if c.sess.upstream.None? then I else c.backend,
      if e.Ask? then c.asked + 1 else c.asked,
      c.answered + |seen|)
  }

  ghost function Next(c: Conv, e: Event): Conv
    requires Possible(c, e)
  {
    Advance(c, e, Effects(c, e))
  }

  ghost predicate Run(c: Conv, es: seq<Event>)
    decreases |es|
  {
    es == [] || (Possible(c, es[0]) && Run(Next(c, es[0]), es[1..]))
  }

  ghost function End(c: Conv, es: seq<Event>): Conv
    requires Run(c, es)
    decreases |es|
  {
    if es == [] then c else End(Next(c, es[0]), es[1..])
  }

  // ---------- the exception ----------

  /** A query is let through on the lease held. */
  ghost predicate Passes(s: State, text: Text) {
    if s.tx == InFailed then text.rollback
    else s.leasedRole == Some(Replica) && SessionClass(s, Query(text)) == Write ==> text.commit || text.rollback
  }

  /** A query takes a buffered BEGIN along to a backend whose transaction has failed. */
  ghost predicate Doubles(c: Conv, e: Event) {
    e.Ask? && c.sess.pendingBegin.Some? && c.sess.upstream.Some? && c.backend == E && Passes(c.sess, e.text)
  }

  /** A run without that. */
  ghost predicate Steady(c: Conv, es: seq<Event>)
    requires Run(c, es)
    decreases |es|
  {
    es == [] || (!Doubles(c, es[0]) && Steady(Next(c, es[0]), es[1..]))
  }

  ghost predicate NoAsks(es: seq<Event>) {
    forall i :: 0 <= i < |es| ==> !es[i].Ask?
  }

  // ---------- the invariant ----------

  /** Between queries. */
  ghost predicate Quiet(c: Conv) {
    && c.outstanding == [] && !c.sess.swallowing
    && (c.sess.pendingBegin.Some? ==> c.last != I)
    && (c.sess.upstream.Some? && c.backend == E ==> c.last == E || c.sess.pendingBegin.Some?)
    && (c.sess.mode == TransactionMode ==>
          && (c.last == I <==> c.sess.upstream.None? && c.sess.pendingBegin.None?)
          && (c.sess.upstream.Some? && c.backend == E ==> c.sess.tx == InFailed))
  }

  /** A query is on its way: alone, or behind the replayed BEGIN. */
  ghost predicate InFlight(c: Conv) {
    && c.sess.upstream.Some? && c.sess.pendingBegin.None?
    && if c.sess.swallowing then c.outstanding == [Begin, Plain] && c.backend != E else c.outstanding == [Plain]
  }

  ghost predicate Inv(c: Conv) {
    c.sess.closed ||
    (&& (c.sess.tx == InFailed ==> c.sess.upstream.Some?)
     && c.asked == c.answered + (if c.waiting then 1 else 0)
     && if c.waiting then InFlight(c) else Quiet(c))
  }

  ghost predicate Refusal(out: seq<Out>, code: string, status: Status) {
    out == [ToClient(Error(code)), ToClient(Ready(status))]
  }

  /** Why a query is refused on the lease held: the transaction has failed, or it writes on a
      replica. */
  ghost function RefusalCode(s: State): string {
    if s.tx == InFailed then "25P02" else "25006"
  }

  /** What asking can do: end the session with FATAL alone; buffer BEGIN; undo a buffered
      BEGIN when there is no lease; refuse in a failed or replica transaction; or forward the
      query, behind the buffered BEGIN if there is one. */
  ghost predicate AskShape(s: State, text: Text, grant: LeaseResult, f: Effect) {
    var t := f.state;
    if t.closed then grant.Refused? && f.out == [ToClient(Fatal(grant.code))]
    else
      && (t.tx == InFailed ==> t.upstream.Some?)
      && if text.start && s.pendingBegin.None? then
           t == s.(pendingBegin := Some(text)) && f.out == [ToClient(BeginComplete), ToClient(Ready(T))]
         else if t.upstream.None? then
           && grant.Refused? && Refusal(f.out, grant.code, I)
           && s.upstream.None? && s.pendingBegin.Some? && t.pendingBegin.None? && !t.swallowing
         else if s.upstream.Some? && !Passes(s, text) then
           && Refusal(f.out, RefusalCode(s), E) && t.pendingBegin == s.pendingBegin && !t.swallowing && t.mode == s.mode
           && (s.tx == InFailed ==> t.tx == InFailed)
         else
           && t.pendingBegin.None? && t.swallowing == s.pendingBegin.Some?
           && f.out == (if s.pendingBegin.Some? then [ToUpstream(Query(s.pendingBegin.value), t.upstream.value, true)] else [])
                       + [ToUpstream(Query(text), t.upstream.value, false)]
  }

  lemma {:induction false} AskEffect(s: State, text: Text, grant: LeaseResult)
    requires !s.closed && !s.swallowing && (s.tx == InFailed ==> s.upstream.Some?)
    ensures AskShape(s, text, grant, OnClient(s, Query(text), grant))
  {
    if !(text.start && s.pendingBegin.None?) {
      SqlEffect(s, text, grant);
      var h := HandleSql(s, Query(text), grant);
      assert h.out + [] == h.out;
      assert h.out == [] ==> h.out + Conclude(h.state, h.verdict, Query(text)).out == Conclude(h.state, h.verdict, Query(text)).out;
    }
  }

  lemma {:induction false} SqlEffect(s: State, text: Text, grant: LeaseResult)
    requires s.tx == InFailed ==> s.upstream.Some?
    ensures var h := HandleSql(s, Query(text), grant);
            && h.state.pendingBegin == s.pendingBegin && h.state.swallowing == s.swallowing
            && h.state.mode == s.mode && h.state.closed == s.closed
            && (h.state.tx == InFailed ==> h.state.upstream.Some?)
            && match h.verdict
               case Consumed =>
                 s.upstream.Some? && !Passes(s, text) && h.state.upstream.Some?
                 && (s.tx == InFailed ==> h.state.tx == InFailed)
                 && Refusal(h.out, RefusalCode(s), E)
               case NoLease(code) => h.out == [] && grant.Refused? && code == grant.code && s.upstream.None? && h.state.upstream.None?
               case Forward => h.out == [] && h.state.upstream.Some? && (s.upstream.Some? ==> Passes(s, text))
  {
  }

  function StatusOf(o: Out): seq<Status> {
    if o.ToClient? && o.server.Ready? then [o.server.status] else []
  }

  function SentOf(o: Out): seq<Sent> {
    if o.ToUpstream? then [if o.replayed then Begin else Plain] else []
  }

  lemma {:induction false} StatusesOf(a: Out, b: Out)
    ensures Statuses([a]) == StatusOf(a) && Statuses([a, b]) == StatusOf(a) + StatusOf(b)
    ensures Forwarded([a]) == SentOf(a) && Forwarded([a, b]) == SentOf(a) + SentOf(b)
  {
    assert [a][1..] == [] && [b][1..] == [] && [a, b][1..] == [b];
    assert Statuses([b]) == StatusOf(b) && Forwarded([b]) == SentOf(b);
  }

  lemma {:induction false} OutShape(out: seq<Out>)
    requires 1 <= |out| <= 2
    ensures Statuses(out) == StatusOf(out[0]) + (if |out| == 2 then StatusOf(out[1]) else [])
    ensures Forwarded(out) == SentOf(out[0]) + (if |out| == 2 then SentOf(out[1]) else [])
  {
    assert out == if |out| == 1 then [out[0]] else [out[0], out[1]];
    StatusesOf(out[0], out[|out| - 1]);
  }

  lemma {:induction false} AskKeepsInv(c: Conv, e: Event, f: Effect)
    requires e.Ask? && !c.sess.closed && !c.waiting && Inv(c) && !Doubles(c, e)
    requires AskShape(c.sess, e.text, e.grant, f)
    ensures Inv(Advance(c, e, f))
  {
    OutShape(f.out);
  }

  lemma {:induction false} AnswerKeepsInv(c: Conv, e: Event)
    requires Possible(c, e) && !e.Ask? && Inv(c)
    ensures Inv(Next(c, e))
  {
    if !c.sess.swallowing { OutShape(Effects(c, e).out); }
  }

  lemma {:induction false} InvStep(c: Conv, e: Event)
    requires Possible(c, e) && Inv(c) && !Doubles(c, e)
    ensures Inv(Next(c, e))
  {
    if e.Ask? {
      AskEffect(c.sess, e.text, e.grant);
      AskKeepsInv(c, e, Effects(c, e));
    } else {
      AnswerKeepsInv(c, e);
    }
  }

  lemma {:induction false} InvRun(c: Conv, es: seq<Event>)
    requires Inv(c) && Run(c, es) && Steady(c, es)
    ensures Inv(End(c, es))
    decreases |es|
  {
    if es != [] {
      InvStep(c, es[0]);
      InvRun(Next(c, es[0]), es[1..]);
    }
  }

  // ---------- theorems ----------

  /** In every steady run, a client that does not wait has had exactly one status per query;
      one that waits has had all but the last. In transaction mode, between queries, the
      client last saw I exactly when no upstream is held and no BEGIN is buffered. */
  lemma {:induction false} OneStatusPerQuery(c: Conv, es: seq<Event>)
    requires Init(c) && Run(c, es) && Steady(c, es)
    ensures var d := End(c, es);
            d.sess.closed ||
            (&& d.asked == d.answered + (if d.waiting then 1 else 0)
             && (!d.waiting && d.sess.mode == TransactionMode ==>
                   (d.last == I <==> d.sess.upstream.None? && d.sess.pendingBegin.None?)))
  {
    InvRun(c, es);
  }

  /** The session ends only with FATAL in place of the status. */
  lemma {:induction false} EndsWithFatal(c: Conv, es: seq<Event>, e: Event)
    requires Init(c) && Run(c, es) && Steady(c, es) && Possible(End(c, es), e) && Next(End(c, es), e).sess.closed
    ensures e.Ask? && e.grant.Refused? && Effects(End(c, es), e).out == [ToClient(Fatal(e.grant.code))]
  {
    InvRun(c, es);
    var s := End(c, es).sess;
    match e
    case Ask(text, grant) => AskEffect(s, text, grant);
    case Answer(status, now) => RepliesKeepOpen(s, Ready(status), now);
    case Chatter(m, now) => RepliesKeepOpen(s, m, now);
  }

  lemma {:induction false} RepliesKeepOpen(s: State, reply: ServerMsg, now: int)
    ensures OnUpstream(s, reply, now).state.closed == s.closed
  {}

  ghost function Answers(es: seq<Event>): nat {
    if es == [] then 0 else (if es[0].Answer? then 1 else 0) + Answers(es[1..])
  }

  /** One reply to a waiting client: an answer takes one query off, and only the answer to
      the last one is a status for the client. */
  lemma {:induction false} ReplyEffect(c: Conv, e: Event)
    requires Possible(c, e) && !e.Ask? && Inv(c) && c.waiting
    ensures var d := Next(c, e);
            && !d.sess.closed && d.asked == c.asked
            && |d.outstanding| == |c.outstanding| - (if e.Answer? then 1 else 0)
            && (d.waiting <==> d.outstanding != [])
            && d.answered == c.answered + (if d.waiting then 0 else 1)
  {
    if !c.sess.swallowing { OutShape(Effects(c, e).out); }
    AnswerKeepsInv(c, e);
    match e
    case Answer(status, now) => RepliesKeepOpen(c.sess, Ready(status), now);
    case Chatter(m, now) => RepliesKeepOpen(c.sess, m, now);
  }

  lemma {:induction false} NothingToReply(c: Conv, es: seq<Event>)
    requires Run(c, es) && NoAsks(es) && c.outstanding == []
    ensures es == []
  {}

  /** Replies alone, answers and chatter in any order. */
  lemma {:induction false} RepliesRun(c: Conv, es: seq<Event>)
    requires Run(c, es) && NoAsks(es) && Inv(c) && !c.sess.closed && c.waiting && c.outstanding != []
    ensures var d := End(c, es);
            && Inv(d) && !d.sess.closed && d.asked == c.asked
            && |d.outstanding| + Answers(es) == |c.outstanding|
            && (d.waiting <==> d.outstanding != [])
            && d.answered == c.answered + (if d.waiting then 0 else 1)
    decreases |es|
  {
    if es != [] {
      var d := Next(c, es[0]);
      ReplyEffect(c, es[0]);
      AnswerKeepsInv(c, es[0]);
      if d.waiting {
        RepliesRun(d, es[1..]);
      } else {
        NothingToReply(d, es[1..]);
      }
    }
  }

  /** The wait ends with the answer to the query and not before, whatever else arrives in
      between: at most two queries are outstanding, each answer takes one off, and the client
      has its one status exactly when none is left. */
  lemma {:induction false} AnswersEndTheWait(c: Conv, es: seq<Event>, replies: seq<Event>)
    requires Init(c) && Run(c, es) && Steady(c, es) && !End(c, es).sess.closed && End(c, es).waiting
    requires Run(End(c, es), replies) && NoAsks(replies)
    ensures var d, f := End(c, es), End(End(c, es), replies);
            && 1 <= |d.outstanding| <= 2
            && |f.outstanding| == |d.outstanding| - Answers(replies)
            && (f.waiting <==> f.outstanding != [])
            && f.answered == d.answered + (if f.waiting then 0 else 1)
  {
    InvRun(c, es);
    RepliesRun(End(c, es), replies);
  }

  // ---------- what the client receives ----------

  ghost function ReplyOf(e: Event): ServerMsg
    requires !e.Ask?
  {
    if e.Answer? then Ready(e.status) else e.m
  }

  ghost function ToClients(out: seq<Out>): seq<ServerMsg> {
    if out == [] then [] else (if out[0].ToClient? then [out[0].server] else []) + ToClients(out[1..])
  }

  /** What the backend's replies make the client receive. */
  ghost function Received(c: Conv, es: seq<Event>): seq<ServerMsg>
    requires Run(c, es)
    decreases |es|
  {
    if es == [] then []
    else (if es[0].Ask? then [] else ToClients(Effects(c, es[0]).out)) + Received(Next(c, es[0]), es[1..])
  }

  /** The replies to the client's own queries, not to the replayed BEGIN. */
  ghost function OwnReplies(c: Conv, es: seq<Event>): seq<ServerMsg>
    requires Run(c, es)
    decreases |es|
  {
    if es == [] then []
    else (if es[0].Ask? || c.outstanding[0] == Begin then [] else [ReplyOf(es[0])]) + OwnReplies(Next(c, es[0]), es[1..])
  }

  lemma {:induction false} ReplyPassed(c: Conv, e: Event)
    requires Possible(c, e) && !e.Ask? && Inv(c)
    ensures ToClients(Effects(c, e).out) == if c.outstanding[0] == Begin then [] else [ReplyOf(e)]
  {
    assert [ToClient(ReplyOf(e))][1..] == [];
  }

  lemma {:induction false} RepliesPassed(c: Conv, es: seq<Event>)
    requires Run(c, es) && Steady(c, es) && Inv(c)
    ensures Received(c, es) == OwnReplies(c, es)
    decreases |es|
  {
    if es != [] {
      if !es[0].Ask? { ReplyPassed(c, es[0]); }
      InvStep(c, es[0]);
      RepliesPassed(Next(c, es[0]), es[1..]);
    }
  }

  /** In every steady run the client receives, in order and once each, exactly the messages
      with which the backend answers the client's own queries: rows, errors and statuses, and
      nothing of the answer to the replayed BEGIN. */
  lemma {:induction false} OwnRepliesReceived(c: Conv, es: seq<Event>)
    requires Init(c) && Run(c, es) && Steady(c, es)
    ensures Received(c, es) == OwnReplies(c, es)
  {
    RepliesPassed(c, es);
  }

  // ---------- when it fails ----------

  /** The states between a doubled query and its last answer. */
  ghost predicate Doubled(c: Conv) {
    && !c.sess.closed
    && (|| (&& c.sess.upstream.Some? && c.sess.swallowing && c.outstanding == [Begin, Plain] && c.backend == E
            && c.answered + 1 == c.asked)
        || (c.sess.upstream.Some? && !c.sess.swallowing && c.outstanding == [Plain] && c.answered == c.asked)
        || (c.outstanding == [] && c.answered == c.asked + 1))
  }

  lemma {:induction false} DoubledAsk(c: Conv, e: Event, f: Effect)
    requires e.Ask? && !c.sess.closed && !c.waiting && Inv(c) && Doubles(c, e)
    requires AskShape(c.sess, e.text, e.grant, f) && !f.state.closed
    ensures Doubled(Advance(c, e, f))
  {
    OutShape(f.out);
  }

  lemma {:induction false} DoubledAnswer(c: Conv, e: Event)
    requires Possible(c, e) && e.Answer? && Doubled(c)
    ensures Doubled(Next(c, e))
  {
    RepliesKeepOpen(c.sess, Ready(e.status), e.now);
    OutShape(Effects(c, e).out);
  }

  lemma {:induction false} DoubledChatter(c: Conv, e: Event)
    requires Possible(c, e) && e.Chatter? && Doubled(c)
    ensures Doubled(Next(c, e))
  {
    RepliesKeepOpen(c.sess, e.m, e.now);
    if !c.sess.swallowing { OutShape(Effects(c, e).out); }
  }

  lemma {:induction false} DoubledStep(c: Conv, e: Event)
    requires Possible(c, e) && !e.Ask? && Doubled(c)
    ensures Doubled(Next(c, e))
  {
    if e.Answer? { DoubledAnswer(c, e); } else { DoubledChatter(c, e); }
  }

  lemma {:induction false} DoubledRun(c: Conv, es: seq<Event>)
    requires Run(c, es) && NoAsks(es) && Doubled(c)
    ensures Doubled(End(c, es))
    decreases |es|
  {
    if es != [] {
      DoubledStep(c, es[0]);
      DoubledRun(Next(c, es[0]), es[1..]);
    }
  }

  /** The exact condition. After any steady run, once everything sent for a query is answered,
      the client has one status per query if and only if that query did not take a buffered
      BEGIN along to a failed transaction; otherwise it has one too many. */
  lemma {:induction false} OneStatusExactly(c: Conv, es: seq<Event>, e: Event, replies: seq<Event>)
    requires Init(c) && Run(c, es) && Steady(c, es) && Possible(End(c, es), e) && e.Ask?
    requires Run(Next(End(c, es), e), replies) && NoAsks(replies)
    requires End(Next(End(c, es), e), replies).outstanding == [] && !Next(End(c, es), e).sess.closed
    ensures var f := End(Next(End(c, es), e), replies);
            f.answered == f.asked + (if Doubles(End(c, es), e) then 1 else 0)
  {
    InvRun(c, es);
    var d := End(c, es);
    if Doubles(d, e) {
      AskEffect(d.sess, e.text, e.grant);
      DoubledAsk(d, e, Effects(d, e));
      DoubledRun(Next(d, e), replies);
    } else {
      InvStep(d, e);
      var d1 := Next(d, e);
      if d1.waiting {
        RepliesRun(d1, replies);
      } else {
        NothingToReply(d1, replies);
      }
    }
  }

  /** In transaction mode that means: BEGIN is buffered on a failed transaction and ROLLBACK
      follows. */
  lemma {:induction false} DoublesInTransactionMode(c: Conv, es: seq<Event>, e: Event)
    requires Init(c) && Run(c, es) && Steady(c, es) && Possible(End(c, es), e) && e.Ask?
    requires End(c, es).sess.mode == TransactionMode
    ensures var d := End(c, es);
            Doubles(d, e) <==>
            d.sess.pendingBegin.Some? && d.sess.upstream.Some? && d.backend == E && e.text.rollback
  {
    InvRun(c, es);
  }

  /** A client that sends no BEGIN when it last saw E never gets there. */
  lemma {:induction false} NoBeginAfterError(c: Conv, es: seq<Event>)
    requires Init(c) && Run(c, es) && Careful(c, es)
    ensures Steady(c, es)
  {
    CarefulIsSteady(c, es);
  }

  ghost predicate Careful(c: Conv, es: seq<Event>)
    requires Run(c, es)
    decreases |es|
  {
    es == [] || ((es[0].Ask? && es[0].text.start ==> c.last != E) && Careful(Next(c, es[0]), es[1..]))
  }

  ghost predicate BufferedOnSound(c: Conv) {
    c.sess.closed || c.waiting || (c.sess.pendingBegin.Some? && c.sess.upstream.Some? ==> c.backend != E)
  }

  lemma {:induction false} CarefulStep(c: Conv, e: Event)
    requires Possible(c, e) && Inv(c) && BufferedOnSound(c) && (e.Ask? && e.text.start ==> c.last != E)
    ensures !Doubles(c, e) && BufferedOnSound(Next(c, e))
  {
    if e.Ask? {
      AskEffect(c.sess, e.text, e.grant);
      OutShape(Effects(c, e).out);
    } else {
      AnswerKeepsInv(c, e);
      AnswerBuffers(c, e);
    }
  }

  lemma {:induction false} AnswerBuffers(c: Conv, e: Event)
    requires Possible(c, e) && !e.Ask? && Inv(c)
    ensures Next(c, e).sess.pendingBegin.None?
  {}

  lemma {:induction false} CarefulIsSteady(c: Conv, es: seq<Event>)
    requires Run(c, es) && Careful(c, es) && Inv(c) && BufferedOnSound(c)
    ensures Steady(c, es)
    decreases |es|
  {
    if es != [] {
      CarefulStep(c, es[0]);
      InvStep(c, es[0]);
      CarefulIsSteady(Next(c, es[0]), es[1..]);
    }
  }

  // ---------- a run that fails ----------

  lemma {:induction false} OneStep(c: Conv, e: Event)
    requires Possible(c, e)
    ensures Run(c, [e]) && End(c, [e]) == Next(c, e) && (!Doubles(c, e) ==> Steady(c, [e]))
  {
    assert [e][1..] == [];
    assert End(Next(c, e), []) == Next(c, e);
  }

  lemma {:induction false} MoreSteps(c: Conv, e: Event, es: seq<Event>)
    requires Possible(c, e) && Run(Next(c, e), es)
    ensures Run(c, [e] + es) && End(c, [e] + es) == End(Next(c, e), es)
    ensures !Doubles(c, e) && Steady(Next(c, e), es) ==> Steady(c, [e] + es)
  {
    assert ([e] + es)[1..] == es;
  }

  /** BEGIN is buffered, whatever the lease. */
  lemma {:induction false} BeginStep(c: Conv, begin: Text, grant: LeaseResult)
    requires !c.sess.closed && !c.waiting && c.outstanding == [] && c.sess.pendingBegin.None? && begin.start
    ensures var e := Ask(begin, grant);
            && Possible(c, e) && !Doubles(c, e)
            && Next(c, e) == Conv(c.sess.(pendingBegin := Some(begin)), T, false, [],
                                  if c.sess.upstream.None? then I else c.backend, c.asked + 1, c.answered + 1)
  {
    OutShape(Effects(c, Ask(begin, grant)).out);
  }

  /** A query behind the buffered BEGIN. */
  lemma {:induction false} BehindBegin(c: Conv, text: Text, grant: LeaseResult)
    requires !c.sess.closed && !c.waiting && c.outstanding == [] && c.sess.pendingBegin.Some? && !c.sess.swallowing
    requires if c.sess.upstream.Some? then Passes(c.sess, text) else c.sess.tx != InFailed && grant.Lease?
    requires !text.pins
    ensures var e := Ask(text, grant);
            && Possible(c, e)
            && var d := Next(c, e);
               && d.waiting && d.outstanding == [Begin, Plain] && d.asked == c.asked + 1 && d.answered == c.answered
               && d.backend == (if c.sess.upstream.None? then I else c.backend)
               && d.sess.upstream.Some? && d.sess.swallowing && d.sess.pendingBegin.None? && !d.sess.closed
               && d.sess.mode == c.sess.mode
  {
    AskEffect(c.sess, text, grant);
    ForwardsOpen(c.sess, text, grant);
    OutShape(Effects(c, Ask(text, grant)).out);
  }

  lemma {:induction false} ForwardsOpen(s: State, text: Text, grant: LeaseResult)
    requires !s.closed && s.pendingBegin.Some? && !text.pins
    requires if s.upstream.Some? then Passes(s, text) else s.tx != InFailed && grant.Lease?
    ensures var t := OnClient(s, Query(text), grant).state; !t.closed && t.upstream.Some? && t.mode == s.mode
  {}

  /** The answer to the replayed BEGIN is swallowed while the backend is sound. */
  lemma {:induction false} SwallowStep(c: Conv, now: int)
    requires !c.sess.closed && c.sess.upstream.Some? && c.sess.swallowing && c.outstanding == [Begin, Plain] && c.backend == I
    ensures var e := Answer(T, now);
            Possible(c, e)
            && Next(c, e) == c.(sess := c.sess.(swallowing := false), outstanding := [Plain], backend := T)
  {
    assert Effects(c, Answer(T, now)).out == [];
  }

  lemma {:induction false} FailStep(c: Conv, now: int)
    requires !c.sess.closed && c.sess.upstream.Some? && !c.sess.swallowing && c.outstanding == [Plain] && c.waiting
    requires c.sess.mode == TransactionMode
    ensures var e := Answer(E, now);
            Possible(c, e)
            && Next(c, e) == c.(sess := c.sess.(tx := InFailed, firstClass := Unknown), last := E, waiting := false,
                                outstanding := [], backend := E, answered := c.answered + 1)
  {
    OutShape(Effects(c, Answer(E, now)).out);
  }

  /** The exception is reached from the start: BEGIN, a query that fails, BEGIN again, and
      ROLLBACK, which is answered twice. */
  lemma {:induction false} BeginInFailedTransaction(
    c: Conv, begin: Text, query: Text, rollback: Text, grant: LeaseResult, now: int)
    requires Init(c) && c.sess.mode == TransactionMode && grant.Lease?
    requires begin.start && !query.pins && rollback.rollback && !rollback.pins
    ensures var es := [Ask(begin, grant), Ask(query, grant), Answer(T, now), Answer(E, now), Ask(begin, grant)];
            var e := Ask(rollback, grant);
            && Run(c, es) && Steady(c, es) && Possible(End(c, es), e) && Doubles(End(c, es), e)
            && !Next(End(c, es), e).sess.closed
            && Run(Next(End(c, es), e), [Answer(E, now), Answer(I, now)])
            && var f := End(Next(End(c, es), e), [Answer(E, now), Answer(I, now)]);
               f.outstanding == [] && f.answered == f.asked + 1
  {
    var a, b, t, x := Ask(begin, grant), Ask(query, grant), Answer(T, now), Answer(E, now);
    BeginStep(c, begin, grant);
    var c1 := Next(c, a);
    BehindBegin(c1, query, grant);
    var c2 := Next(c1, b);
    SwallowStep(c2, now);
    var c3 := Next(c2, t);
    FailStep(c3, now);
    var c4 := Next(c3, x);
    BeginStep(c4, begin, grant);
    OneStep(c4, a);
    MoreSteps(c3, x, [a]);
    MoreSteps(c2, t, [x] + [a]);
    MoreSteps(c1, b, [t] + ([x] + [a]));
    MoreSteps(c, a, [b] + ([t] + ([x] + [a])));
    assert [a] + ([b] + ([t] + ([x] + [a]))) == [a, b, t, x, a];
    var es, d, e := [a, b, t, x, a], Next(c4, a), Ask(rollback, grant);
    BehindBegin(d, rollback, grant);
    TwoAnswers(Next(d, e), now);
    OneStatusExactly(c, es, e, [Answer(E, now), Answer(I, now)]);
  }

  lemma {:induction false} TwoAnswers(c: Conv, now: int)
    requires !c.sess.closed && c.sess.upstream.Some? && c.sess.swallowing && c.outstanding == [Begin, Plain] && c.backend == E
    requires c.sess.mode == TransactionMode
    ensures var es := [Answer(E, now), Answer(I, now)]; Run(c, es) && NoAsks(es) && End(c, es).outstanding == []
  {
    var a, b := Answer(E, now), Answer(I, now);
    var d := Next(c, a);
    OutShape(Effects(c, a).out);
    assert d.outstanding == [Plain] && d.sess.upstream.Some? && !d.sess.closed && !d.sess.swallowing;
    OneStep(d, b);
    MoreSteps(c, a, [b]);
    assert [a] + [b] == [a, b];
  }
}
