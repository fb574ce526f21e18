/** The compat-port session: one step per client message or upstream message. BEGIN is
    buffered and answered synthetically, replayed before the next statement and its reply
    swallowed; writes are kept off replica leases; a committed write opens the post-write
    window. Times are nanoseconds, downstream flushes succeed. */
module Session {
  import opened Options
  import opened Classifier
  import opened Topology
  import opened Decisions
  import opened Routing

  /** SQL text with everything the session reads off it. */
  datatype Text = Text(sql: string, keyword: Class, start: bool, commit: bool, rollback: bool, pins: bool)

  ghost function Analyze(sql: string): Text {
    Text(sql, KeywordClass(sql), IsTransactionStart(sql), IsCommit(sql), IsRollback(sql), UsesSessionState(sql))
  }

  datatype ClientMsg =
    | Query(text: Text)
    | Parse(name: string, text: Text)
    | Sync
    | Terminate
    | OtherClient

  datatype Status = I | T | E

  datatype ServerMsg =
    | Ready(status: Status)
    | Error(code: string)
    | Fatal(code: string)
    | BeginComplete
    | OtherServer

  /** What one step sends. An upstream message records the role of the lease it travels on
      and whether it is the replayed BEGIN. */
  datatype Out =
    | ToClient(server: ServerMsg)
    | ToUpstream(client: ClientMsg, role: Role, replayed: bool)

  datatype PoolMode = TransactionMode | SessionMode

  datatype State = State(
    mode: PoolMode,
    upstream: Option<Role>,
    pendingBegin: Option<Text>,
    swallowing: bool,
    tx: TxState,
    firstClass: Traffic,
    leasedRole: Option<Role>,
    openedAt: Option<int>,
    durationMs: int,
    awaitingRollback: bool,
    prepared: map<string, Class>,
    closed: bool)

  // ---------- the post-write window ----------

  predicate WindowActive(s: State, now: int) {
    s.durationMs > 0 && s.openedAt.Some? && now - s.openedAt.value < s.durationMs * NANOS_PER_MS
  }

  function RemainingMs(s: State, now: int): int {
    if WindowActive(s, now) then s.durationMs - Milliseconds(now - s.openedAt.value) else 0
  }

  // ---------- statements ----------

  /** The outcome of `handleCompatSQL`: consumed here, to be forwarded, or no lease. */
  datatype Verdict = Consumed | Forward | NoLease(code: string)
  datatype Handled = Handled(state: State, out: seq<Out>, verdict: Verdict)

  predicate IsStatement(msg: ClientMsg) {
    msg.Query? || msg.Parse?
  }

  function StatementName(msg: ClientMsg): string {
    if msg.Parse? then msg.name else ""
  }

  function SessionClass(s: State, msg: ClientMsg): Traffic
    requires IsStatement(msg)
  {
    ClassifyText(s.tx, s.prepared, StatementName(msg), msg.text.keyword).0.traffic
  }

  function HandleFailed(s: State, msg: ClientMsg): Handled {
    match msg
    case Query(text) =>
      if text.rollback then Handled(s.(awaitingRollback := true), [], Forward)
      else Handled(s, [ToClient(Error("25P02")), ToClient(Ready(E))], Consumed)
    case Sync => Handled(s, [ToClient(Ready(E))], Consumed)
    case Terminate => Handled(s, [], Forward)
    case _ => Handled(s, [], Consumed)
  }

  /** A Query or Parse outside a failed transaction. */
  function HandleStatement(s: State, msg: ClientMsg, grant: LeaseResult): Handled
    requires IsStatement(msg)
  {
    var (cls, prepared) := ClassifyText(s.tx, s.prepared, StatementName(msg), msg.text.keyword);
    if s.upstream.Some? then HandleHeld(s.(prepared := prepared), msg, cls.traffic == Write)
    else HandleFirst(s.(prepared := prepared), msg, cls.traffic, grant)
  }

  /** On the lease already held. */
  function HandleHeld(s: State, msg: ClientMsg, write: bool): Handled
    requires IsStatement(msg)
  {
    if s.leasedRole == Some(Replica) && write && !msg.text.commit && !msg.text.rollback then
      Handled(s.(tx := InFailed),
              [ToClient(Error("25006"))] + if msg.Query? then [ToClient(Ready(E))] else [],
              Consumed)
    else
      Handled(s.(tx := if write then InWrite else if s.tx == Idle then InRead else s.tx,
                 awaitingRollback := s.awaitingRollback || msg.text.rollback),
              [], Forward)
  }

  /** The statement that acquires the lease. */
  function HandleFirst(s: State, msg: ClientMsg, cls: Traffic, grant: LeaseResult): Handled
    requires IsStatement(msg)
  {
    match grant
    case Refused(code) => Handled(s, [], NoLease(code))
    case Lease(_, role) =>
      Handled(s.(upstream := Some(role), leasedRole := Some(role), firstClass := cls,
                 tx := if cls == Write then InWrite else InRead,
                 awaitingRollback := s.awaitingRollback || msg.text.rollback),
              [], Forward)
  }

  function HandleSql(s: State, msg: ClientMsg, grant: LeaseResult): Handled {
    if s.tx == InFailed then HandleFailed(s, msg)
    else if IsStatement(msg) then HandleStatement(s, msg, grant)
    else if s.upstream.Some? then Handled(s, [], Forward)
    else
      match grant
      case Refused(code) => Handled(s, [], NoLease(code))
      case Lease(_, role) => Handled(s.(upstream := Some(role), leasedRole := Some(role)), [], Forward)
  }

  // ---------- steps ----------

  datatype Effect = Effect(state: State, out: seq<Out>)

  function Close(s: State): State {
    s.(closed := true, upstream := None)
  }

  /** Sends the buffered BEGIN, if any, and then the message. */
  function Deliver(s: State, msg: ClientMsg, role: Role): Effect {
    var replay := if s.pendingBegin.Some? then [ToUpstream(Query(s.pendingBegin.value), role, true)] else [];
    Effect(
      s.(pendingBegin := None,
         swallowing := s.swallowing || s.pendingBegin.Some?,
         mode := if msg.Query? && msg.text.pins then SessionMode else s.mode),
      replay + [ToUpstream(msg, role, false)])
  }

  /** What the main loop does with the verdict. */
  function Conclude(s: State, verdict: Verdict, msg: ClientMsg): Effect {
    match verdict
    case Consumed => Effect(s, [])
    case NoLease(code) =>
      if s.pendingBegin.Some? then Effect(s.(pendingBegin := None), [ToClient(Error(code)), ToClient(Ready(I))])
      else Effect(Close(s), [ToClient(Fatal(code))])
    case Forward =>
      // Without an upstream the code dereferences nil and the session is lost.
      if s.upstream.Some? then Deliver(s, msg, s.upstream.value) else Effect(Close(s), [])
  }

  function OnClient(s: State, msg: ClientMsg, grant: LeaseResult): Effect {
    if msg.Terminate? then Effect(Close(s), [])
    else if msg.Query? && msg.text.start && s.pendingBegin.None? then
      Effect(s.(pendingBegin := Some(msg.text)), [ToClient(BeginComplete), ToClient(Ready(T))])
    else OnStatement(s, msg, grant)
  }

  function OnStatement(s: State, msg: ClientMsg, grant: LeaseResult): Effect {
    var h := HandleSql(s, msg, grant);
    var e := Conclude(h.state, h.verdict, msg);
    Effect(e.state, h.out + e.out)
  }

  function OnReady(s: State, status: Status, now: int): State {
    match status
    case I =>
      var opens := !s.awaitingRollback && s.firstClass == Write && s.leasedRole == Some(Primary);
      s.(openedAt := if opens then Some(now) else s.openedAt,
         tx := Idle, firstClass := Unknown, leasedRole := None, awaitingRollback := false)
    case T => s
    case E => s.(tx := InFailed, firstClass := Unknown)
  }

  function OnUpstream(s: State, msg: ServerMsg, now: int): Effect {
    if s.swallowing then
      if msg.Ready? then
        Effect(s.(swallowing := false),
               if msg.status == T then [] else [ToClient(Error("25P02")), ToClient(Ready(I))])
      else Effect(s, [])
    else if msg.Ready? && s.mode == TransactionMode then
      var s1 := OnReady(s, msg.status, now);
      Effect(if msg.status == I then s1.(upstream := None) else s1, [ToClient(msg)])
    else Effect(s, [ToClient(msg)])
  }

  /** The close-time release signal: the upstream goes, the transaction state stays. */
  function OnRelease(s: State): Effect {
    Effect(s.(upstream := None), [])
  }

  // ---------- the session object ----------

  class CompatSession {
    var poolMode: PoolMode
    var upstream: Option<Role>
    var pendingBegin: Option<Text>
    var swallowingBeginResponse: bool
    var compatTxState: TxState
    var compatTransactionFirstClass: Traffic
    var compatLeasedRole: Option<Role>
    var windowOpenedAt: Option<int>
    const windowDurationMs: int
    var awaitingRollbackResult: bool
    var compatPrepared: map<string, Class>
    var closed: bool
    var sent: seq<Out>

    function Abs(): State
      reads this
    {
      State(poolMode, upstream, pendingBegin, swallowingBeginResponse, compatTxState,
            compatTransactionFirstClass, compatLeasedRole, windowOpenedAt, windowDurationMs,
            awaitingRollbackResult, compatPrepared, closed)
    }

    constructor (mode: PoolMode, held: Option<Role>, durationMs: int)
      ensures Abs() == Initial(mode, held, durationMs) && sent == []
    {
      poolMode, upstream, pendingBegin, swallowingBeginResponse := mode, held, None, false;
      compatTxState, compatTransactionFirstClass, compatLeasedRole := Idle, Unknown, None;
      windowOpenedAt, windowDurationMs, awaitingRollbackResult := None, durationMs, false;
      compatPrepared, closed, sent := map[], false, [];
    }

    method Send(msg: ServerMsg)
      modifies this`sent
      ensures sent == old(sent) + [ToClient(msg)]
    {
      sent := sent + [ToClient(msg)];
    }

    method HandleCompatSQL(msg: ClientMsg, grant: LeaseResult) returns (verdict: Verdict)
      modifies this
      ensures var h := HandleSql(old(Abs()), msg, grant);
              Abs() == h.state && sent == old(sent) + h.out && verdict == h.verdict
    {
      if compatTxState == InFailed {
        if msg.Query? && msg.text.rollback {
          awaitingRollbackResult := true;
          return Forward;
        }
        if msg.Query? {
          Send(Error("25P02"));
          Send(Ready(E));
          return Consumed;
        }
        if msg.Sync? {
          Send(Ready(E));
          return Consumed;
        }
        return if msg.Terminate? then Forward else Consumed;
      }
      if !IsStatement(msg) {
        if upstream.None? {
          if grant.Refused? { return NoLease(grant.code); }
          upstream, compatLeasedRole := Some(grant.role), Some(grant.role);
        }
        return Forward;
      }
      verdict := HandleCompatStatement(msg, grant);
    }

    method HandleCompatStatement(msg: ClientMsg, grant: LeaseResult) returns (verdict: Verdict)
      requires IsStatement(msg)
      modifies this
      ensures var h := HandleStatement(old(Abs()), msg, grant);
              Abs() == h.state && sent == old(sent) + h.out && verdict == h.verdict
    {
      var (cls, prepared) := ClassifyText(compatTxState, compatPrepared, StatementName(msg), msg.text.keyword);
      compatPrepared := prepared;
      if upstream.Some? {
        verdict := HandleOnLease(msg, cls.traffic == Write);
      } else {
        verdict := HandleAcquiring(msg, cls.traffic, grant);
      }
    }

    method HandleOnLease(msg: ClientMsg, write: bool) returns (verdict: Verdict)
      requires IsStatement(msg)
      modifies this
      ensures var h := HandleHeld(old(Abs()), msg, write);
              Abs() == h.state && sent == old(sent) + h.out && verdict == h.verdict
    {
      if compatLeasedRole == Some(Replica) && write && !msg.text.commit && !msg.text.rollback {
        compatTxState := InFailed;
        Send(Error("25006"));
        if msg.Query? { Send(Ready(E)); }
        return Consumed;
      }
      if write {
        compatTxState := InWrite;
      } else if compatTxState == Idle {
        compatTxState := InRead;
      }
      if msg.text.rollback { awaitingRollbackResult := true; }
      verdict := Forward;
    }

    method HandleAcquiring(msg: ClientMsg, cls: Traffic, grant: LeaseResult) returns (verdict: Verdict)
      requires IsStatement(msg)
      modifies this
      ensures var h := HandleFirst(old(Abs()), msg, cls, grant);
              Abs() == h.state && sent == old(sent) + h.out && verdict == h.verdict
    {
      if grant.Refused? { return NoLease(grant.code); }
      upstream, compatLeasedRole := Some(grant.role), Some(grant.role);
      compatTransactionFirstClass := cls;
      compatTxState := if cls == Write then InWrite else InRead;
      if msg.text.rollback { awaitingRollbackResult := true; }
      verdict := Forward;
    }

    method HandleClient(msg: ClientMsg, grant: LeaseResult)
      modifies this
      ensures var e := OnClient(old(Abs()), msg, grant);
              Abs() == e.state && sent == old(sent) + e.out
    {
      if msg.Terminate? {
        closed, upstream := true, None;
        return;
      }
      if msg.Query? && msg.text.start && pendingBegin.None? {
        pendingBegin := Some(msg.text);
        Send(BeginComplete);
        Send(Ready(T));
        return;
      }
      HandleOther(msg, grant);
    }

    method HandleOther(msg: ClientMsg, grant: LeaseResult)
      modifies this
      ensures var e := OnStatement(old(Abs()), msg, grant);
              Abs() == e.state && sent == old(sent) + e.out
    {
      var verdict := HandleCompatSQL(msg, grant);
      Dispatch(msg, verdict);
    }

    method Dispatch(msg: ClientMsg, verdict: Verdict)
      modifies this
      ensures var e := Conclude(old(Abs()), verdict, msg);
              Abs() == e.state && sent == old(sent) + e.out
    {
      match verdict {
        case Consumed =>
        case NoLease(code) =>
          if pendingBegin.Some? {
            pendingBegin := None;
            Send(Error(code));
            Send(Ready(I));
          } else {
            Send(Fatal(code));
            closed, upstream := true, None;
          }
        case Forward =>
          if upstream.None? {
            closed := true;
            return;
          }
          Process(msg);
      }
    }

    method Process(msg: ClientMsg)
      requires upstream.Some?
      modifies this
      ensures var e := Deliver(old(Abs()), msg, old(upstream).value);
              Abs() == e.state && sent == old(sent) + e.out
    {
      if pendingBegin.Some? {
        sent := sent + [ToUpstream(Query(pendingBegin.value), upstream.value, true)];
        swallowingBeginResponse := true;
        pendingBegin := None;
      }
      sent := sent + [ToUpstream(msg, upstream.value, false)];
      if msg.Query? && msg.text.pins { poolMode := SessionMode; }
    }

    method HandleCompatReadyForQuery(status: Status, now: int)
      modifies this
      ensures Abs() == OnReady(old(Abs()), status, now) && sent == old(sent)
    {
      match status {
        case I =>
          if !awaitingRollbackResult && compatTransactionFirstClass == Write && compatLeasedRole == Some(Primary) {
            windowOpenedAt := Some(now);
          }
          compatTxState, compatTransactionFirstClass := Idle, Unknown;
          compatLeasedRole, awaitingRollbackResult := None, false;
        case T =>
        case E =>
          compatTxState, compatTransactionFirstClass := InFailed, Unknown;
      }
    }

    method HandleReleaseSignal()
      modifies this`upstream
      ensures Abs() == OnRelease(old(Abs())).state
    {
      upstream := None;
    }

    method HandleUpstream(msg: ServerMsg, now: int)
      modifies this
      ensures var e := OnUpstream(old(Abs()), msg, now);
              Abs() == e.state && sent == old(sent) + e.out
    {
      if swallowingBeginResponse {
        if msg.Ready? {
          swallowingBeginResponse := false;
          if msg.status != T {
            Send(Error("25P02"));
            Send(Ready(I));
          }
        }
        return;
      }
      Send(msg);
      if msg.Ready? && poolMode == TransactionMode {
        HandleCompatReadyForQuery(msg.status, now);
        if msg.status == I { upstream := None; }
      }
    }
  }

  function Initial(mode: PoolMode, held: Option<Role>, durationMs: int): State {
    State(mode, held, None, false, Idle, Unknown, None, None, durationMs, false, map[], false)
  }
}
