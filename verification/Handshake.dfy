/** The session's goroutines: the main loop, the downstream read loop and the upstream read
    loops, over unbuffered message and acknowledgement channels with cancellation. The
    channels are shared by all upstream loops, as in the code. */
module Handshake {
  type Msg = string

  datatype LoopPc = Receiving | Offering | AwaitingAck | Exited

  /** `buffer` is the decode buffer that the next Receive overwrites; `received` and `handed`
      are the messages read from the connection and given to the main loop. */
  datatype Loop = Loop(pc: LoopPc, buffer: Msg, received: seq<Msg>, handed: seq<Msg>, cancelled: bool)

  const FRESH := Loop(Receiving, "", [], [], false)

  datatype After = BackToSelect | Return

  datatype MainPc =
    | Starting
    | Selecting
    | HandlingDown(msg: Msg)
    | AckingDown(msg: Msg)
    | HandlingUp(loop: nat, msg: Msg)
    | AckingUp(loop: nat, msg: Msg)
    | Releasing(then_: After)
    | Leaving
    | Returned

  datatype State = State(
    main: MainPc,
    down: Loop,
    downStarted: bool,
    ups: seq<Loop>,          // one per acquired upstream, oldest first
    held: bool,              // sess.upstream != nil; it is the last of ups
    released: nat,           // returned to the pool or killed
    cancelled: bool,         // session context
    releaseSignal: bool,
    signalled: bool)         // Close has run up to its signal
  const INIT := State(Starting, FRESH, false, [], false, 0, false, false, false)

  datatype Step =
    // main loop
    | StartLoops | Acquire | TakeDown | TakeUp(i: nat) | FinishDown | FinishUp | AckDown | AckUp(i: nat)
    | Detach | TakeReleaseSignal | Leave | BeginReturn | FinishRelease
    // read loops
    | DownReceive(m: Msg) | DownExit | UpReceive(i: nat, m: Msg) | UpExit(i: nat)
    // closing a session signals the release and then cancels; a server shutdown cancels alone
    | SignalRelease | CancelSession

  function Last(s: State): int { |s.ups| - 1 }

  predicate Enabled(s: State, a: Step) {
    match a
    case StartLoops => s.main == Starting && !s.cancelled
    case Acquire => !s.held && (s.main == Starting || s.main.HandlingDown?)
    case TakeDown => s.main == Selecting && s.downStarted && s.down.pc == Offering
    case TakeUp(i) => s.main == Selecting && i < |s.ups| && s.ups[i].pc == Offering
    case FinishDown => s.main.HandlingDown?
    case FinishUp => s.main.HandlingUp?
    case AckDown => s.main.AckingDown? && s.down.pc == AwaitingAck
    case AckUp(i) => s.main.AckingUp? && i < |s.ups| && s.ups[i].pc == AwaitingAck
    case Detach => s.main.HandlingUp?
    case TakeReleaseSignal => s.main == Selecting && s.releaseSignal
    // errors, Terminate, a closed channel or the cancelled context end Run from any of these
    case Leave =>
      || s.main.Starting? || s.main.Selecting? || s.main.HandlingDown? || s.main.HandlingUp?
      || (s.cancelled && (s.main.AckingDown? || s.main.AckingUp?))
    case BeginReturn => s.main == Leaving
    case FinishRelease => s.main.Releasing? && s.ups != [] && s.ups[Last(s)].pc == Exited
    case DownReceive(_) => s.downStarted && s.down.pc == Receiving
    case DownExit => s.downStarted && s.down.pc != Exited && (s.cancelled || s.down.pc == Receiving)
    case UpReceive(i, _) => i < |s.ups| && s.ups[i].pc == Receiving
    case UpExit(i) =>
      i < |s.ups| && s.ups[i].pc != Exited && (s.cancelled || s.ups[i].cancelled || s.ups[i].pc == Receiving)
    case SignalRelease => !s.signalled
    case CancelSession => true
  }

  function Received(l: Loop, m: Msg): Loop {
    l.(pc := Offering, buffer := m, received := l.received + [m])
  }

  function HandedOver(l: Loop): Loop {
    l.(pc := AwaitingAck, handed := l.handed + [l.buffer])
  }

  /** `releaseUpstream`: forget the upstream, cancel its loop, wait for it. */
  function StartRelease(s: State, then_: After): State {
    if s.held && s.ups != [] then
      s.(held := false, main := Releasing(then_), ups := s.ups[Last(s) := s.ups[Last(s)].(cancelled := true)])
    else s.(main := Resume(then_))
  }

  function Resume(then_: After): MainPc {
    if then_ == Return then Returned else Selecting
  }

  function Do(s: State, a: Step): State
    requires Enabled(s, a)
  {
    match a
    case StartLoops => s.(main := Selecting, downStarted := true)
    case Acquire => s.(ups := s.ups + [FRESH], held := true)
    case TakeDown => s.(main := HandlingDown(s.down.buffer), down := HandedOver(s.down))
    case TakeUp(i) => s.(main := HandlingUp(i, s.ups[i].buffer), ups := s.ups[i := HandedOver(s.ups[i])])
    case FinishDown => s.(main := AckingDown(s.main.msg))
    case FinishUp => s.(main := AckingUp(s.main.loop, s.main.msg))
    case AckDown => s.(main := Selecting, down := s.down.(pc := Receiving))
    case AckUp(i) => s.(main := Selecting, ups := s.ups[i := s.ups[i].(pc := Receiving)])
    case Detach => StartRelease(s, BackToSelect)
    case TakeReleaseSignal => StartRelease(s.(releaseSignal := false), BackToSelect)
    case Leave => s.(main := Leaving)
    case BeginReturn => StartRelease(s, Return)
    case FinishRelease => s.(released := s.released + 1, main := Resume(s.main.then_))
    case DownReceive(m) => s.(down := Received(s.down, m))
    case DownExit => s.(down := s.down.(pc := Exited))
    case UpReceive(i, m) => s.(ups := s.ups[i := Received(s.ups[i], m)])
    case UpExit(i) => s.(ups := s.ups[i := s.ups[i].(pc := Exited)])
    case SignalRelease => s.(releaseSignal := true, signalled := true)
    case CancelSession => s.(cancelled := true)
  }

  // ---------- invariants ----------

  ghost predicate LoopOk(l: Loop) {
    match l.pc
    case Receiving => l.received == l.handed
    case Offering => l.received == l.handed + [l.buffer]
    case AwaitingAck => l.received == l.handed && l.handed != [] && l.handed[|l.handed| - 1] == l.buffer
    case Exited => l.received == l.handed || l.received == l.handed + [l.buffer]
  }

  /** The loop that delivered `m` cannot overwrite it, and leaves early only when the whole
      session is cancelled. */
  ghost predicate Holds(s: State, l: Loop, m: Msg) {
    && l.buffer == m && l.handed != [] && l.handed[|l.handed| - 1] == m
    && (l.pc == AwaitingAck || (l.pc == Exited && s.cancelled))
  }

  ghost predicate MainOk(s: State) {
    match s.main
    case HandlingDown(m) => s.downStarted && Holds(s, s.down, m)
    case AckingDown(m) => s.downStarted && Holds(s, s.down, m)
    case HandlingUp(i, m) => s.held && i == Last(s) && i < |s.ups| && Holds(s, s.ups[i], m)
    case AckingUp(i, m) => s.held && i == Last(s) && i < |s.ups| && Holds(s, s.ups[i], m)
    case Releasing(_) => !s.held && s.ups != [] && s.ups[Last(s)].cancelled
    case Returned => !s.held
    case _ => true
  }

  /** Nobody waits for an acknowledgement that the main loop will not send. */
  ghost predicate AcksOk(s: State) {
    && (s.down.pc == AwaitingAck ==> s.main.HandlingDown? || s.main.AckingDown? || Going(s))
    && (s.held && s.ups != [] && s.ups[Last(s)].pc == AwaitingAck ==> s.main.HandlingUp? || s.main.AckingUp? || Going(s))
  }

  ghost predicate Going(s: State) {
    s.main in {Leaving, Returned, Releasing(Return)}
  }

  ghost predicate LeasesOk(s: State) {
    && (s.held ==> s.ups != [] && !s.ups[Last(s)].cancelled)
    && |s.ups| == s.released + (if s.held || s.main.Releasing? then 1 else 0)
    && (forall i :: 0 <= i < |s.ups| && (i < Last(s) || (!s.held && !s.main.Releasing?)) ==> s.ups[i].pc == Exited)
  }

  ghost predicate Inv(s: State) {
    && LoopOk(s.down)
    && (forall i :: 0 <= i < |s.ups| ==> LoopOk(s.ups[i]))
    && LeasesOk(s)
    && MainOk(s)
    && AcksOk(s)
  }

  /** All that any step does to one read loop. */
  ghost predicate Moves(l: Loop, l': Loop) {
    || l' == l
    || l' == l.(cancelled := true)
    || (l.pc == Receiving && l' == Received(l, l'.buffer))
    || (l.pc == Offering && l' == HandedOver(l))
    || (l.pc == AwaitingAck && l' == l.(pc := Receiving))
    || l' == l.(pc := Exited)
  }

  lemma {:induction false} MovesKeep(l: Loop, l': Loop)
    requires LoopOk(l) && Moves(l, l')
    ensures LoopOk(l')
  {}

  ghost predicate TouchesDown(a: Step) {
    a.TakeDown? || a.AckDown? || a.DownReceive? || a.DownExit?
  }

  lemma {:induction false} DownStays(s: State, a: Step)
    requires Enabled(s, a) && !TouchesDown(a)
    ensures Do(s, a).down == s.down
  {}

  lemma {:induction false} DownMoves(s: State, a: Step)
    requires Enabled(s, a)
    ensures Moves(s.down, Do(s, a).down)
  {
    if !TouchesDown(a) { DownStays(s, a); }
  }

  ghost predicate TouchesUps(a: Step) {
    a.Acquire? || a.TakeUp? || a.AckUp? || a.Detach? || a.TakeReleaseSignal? || a.BeginReturn? || a.UpReceive? || a.UpExit?
  }

  lemma {:induction false} UpsStay(s: State, a: Step)
    requires Enabled(s, a) && !TouchesUps(a)
    ensures Do(s, a).ups == s.ups
  {}

  /** Steps that do not move the upstream loop `i`, and the one that adds a loop. */
  lemma {:induction false} OthersStay(s: State, a: Step, i: nat)
    requires Enabled(s, a) && i < |Do(s, a).ups|
    requires !((a.TakeUp? || a.AckUp? || a.UpReceive? || a.UpExit?) && a.i == i)
    ensures if i < |s.ups| then Do(s, a).ups[i] in {s.ups[i], s.ups[i].(cancelled := true)} else Do(s, a).ups[i] == FRESH
  {
    if !TouchesUps(a) { UpsStay(s, a); }
  }

  lemma {:induction false} UpStep(s: State, a: Step, i: nat)
    requires Enabled(s, a) && i < |Do(s, a).ups| && (i < |s.ups| ==> LoopOk(s.ups[i]))
    ensures LoopOk(Do(s, a).ups[i])
  {
    if (a.TakeUp? || a.AckUp? || a.UpReceive? || a.UpExit?) && a.i == i {
      MovesKeep(s.ups[i], Do(s, a).ups[i]);
    } else {
      OthersStay(s, a, i);
    }
  }

  lemma {:induction false} LoopsStep(s: State, a: Step)
    requires Inv(s) && Enabled(s, a)
    ensures LoopOk(Do(s, a).down)
    ensures forall i :: 0 <= i < |Do(s, a).ups| ==> LoopOk(Do(s, a).ups[i])
  {
    var t := Do(s, a);
    DownMoves(s, a);
    MovesKeep(s.down, t.down);
    forall i | 0 <= i < |t.ups| ensures LoopOk(t.ups[i]) {
      assert i < |s.ups| ==> LoopOk(s.ups[i]);
      UpStep(s, a, i);
    }
  }

  lemma {:induction false} LeasesStep(s: State, a: Step)
    requires LeasesOk(s) && MainOk(s) && Enabled(s, a)
    ensures LeasesOk(Do(s, a))
  {}

  lemma {:induction false} MainStep(s: State, a: Step)
    requires LeasesOk(s) && MainOk(s) && Enabled(s, a)
    ensures MainOk(Do(s, a))
  {}

  lemma {:induction false} AcksStep(s: State, a: Step)
    requires LeasesOk(s) && MainOk(s) && AcksOk(s) && Enabled(s, a)
    ensures AcksOk(Do(s, a))
  {}

  lemma {:induction false} InvStep(s: State, a: Step)
    requires Inv(s) && Enabled(s, a)
    ensures Inv(Do(s, a))
  {
    LoopsStep(s, a);
    LeasesStep(s, a);
    MainStep(s, a);
    AcksStep(s, a);
  }

  // ---------- every interleaving ----------

  ghost predicate Run(s: State, steps: seq<Step>)
    decreases |steps|
  {
    steps == [] || (Enabled(s, steps[0]) && Run(Do(s, steps[0]), steps[1..]))
  }

  ghost function End(s: State, steps: seq<Step>): State
    requires Run(s, steps)
    decreases |steps|
  {
    if steps == [] then s else End(Do(s, steps[0]), steps[1..])
  }

  lemma {:induction false} InvRun(s: State, steps: seq<Step>)
    requires Inv(s) && Run(s, steps)
    ensures Inv(End(s, steps))
    decreases |steps|
  {
    if steps != [] {
      InvStep(s, steps[0]);
      InvRun(Do(s, steps[0]), steps[1..]);
    }
  }

  /** While the main loop works on a message, the loop that delivered it waits for the
      acknowledgement or has exited, and its buffer still holds that very message; an
      acknowledgement reaches that loop and no other. */
  lemma {:induction false} BufferStable(steps: seq<Step>)
    requires Run(INIT, steps)
    ensures var s := End(INIT, steps);
            match s.main
            case HandlingDown(m) => s.down.pc in {AwaitingAck, Exited} && s.down.buffer == m
            case HandlingUp(i, m) => i < |s.ups| && s.ups[i].pc in {AwaitingAck, Exited} && s.ups[i].buffer == m
            case AckingUp(i, _) => forall j :: Enabled(s, AckUp(j)) ==> j == i
            case _ => true
  {
    InvRun(INIT, steps);
  }

  /** What the main loop was given from a connection is a prefix of what was received from
      it, short by at most one message. */
  lemma {:induction false} HandedInOrder(steps: seq<Step>)
    requires Run(INIT, steps)
    ensures var s := End(INIT, steps);
            && s.down.handed <= s.down.received && |s.down.received| <= |s.down.handed| + 1
            && forall i :: 0 <= i < |s.ups| ==>
                 s.ups[i].handed <= s.ups[i].received && |s.ups[i].received| <= |s.ups[i].handed| + 1
  {
    InvRun(INIT, steps);
    var s := End(INIT, steps);
    assert LoopOk(s.down);
    forall i | 0 <= i < |s.ups|
      ensures s.ups[i].handed <= s.ups[i].received && |s.ups[i].received| <= |s.ups[i].handed| + 1
    {
      assert LoopOk(s.ups[i]);
    }
  }

  /** Upstreams acquired are those given back plus the one held or on its way back; at most
      one upstream read loop is alive; when Run returns everything was given back. */
  lemma {:induction false} LeasesConserved(steps: seq<Step>)
    requires Run(INIT, steps)
    ensures var s := End(INIT, steps);
            && |s.ups| == s.released + (if s.held || s.main.Releasing? then 1 else 0)
            && (forall i, j :: 0 <= i < j < |s.ups| ==> s.ups[i].pc == Exited || s.ups[j].pc == Exited)
            && (s.main == Returned ==> !s.held && s.released == |s.ups| && forall i :: 0 <= i < |s.ups| ==> s.ups[i].pc == Exited)
  {
    InvRun(INIT, steps);
  }

  /** Waiting for the cancelled loop cannot block: either it is gone or it can go. */
  lemma {:induction false} ReleaseNeverStuck(steps: seq<Step>)
    requires Run(INIT, steps) && End(INIT, steps).main.Releasing?
    ensures var s := End(INIT, steps);
            Enabled(s, FinishRelease) || (0 <= Last(s) && Enabled(s, UpExit(Last(s))))
  {
    InvRun(INIT, steps);
  }

  // ---------- closing always finishes ----------

  ghost predicate Done(s: State) {
    s.main == Returned && !Alive(s) && !(s.downStarted && s.down.pc != Exited)
  }

  /** The newest upstream read loop is still running. */
  ghost predicate Alive(s: State) {
    s.ups != [] && s.ups[Last(s)].pc != Exited
  }

  /** One step nearer to the end, taken by the main loop or by a read loop it waits for. */
  ghost function WindDownStep(s: State): Step
    requires 0 <= Last(s) || !Alive(s)
  {
    if Alive(s) then UpExit(Last(s))
    else if s.downStarted && s.down.pc != Exited then DownExit
    else match s.main
      case Releasing(_) => FinishRelease
      case Leaving => BeginReturn
      case _ => Leave
  }

  ghost function Rank(s: State): nat {
    (match s.main
     case Returned => 0
     case Releasing(then_) => if then_ == Return then 1 else 4
     case Leaving => 2
     case _ => 3)
    + (if Alive(s) then 1 else 0) + (if s.downStarted && s.down.pc != Exited then 1 else 0)
  }

  lemma {:induction false} LoopWindsDown(s: State)
    requires Inv(s) && s.cancelled && (Alive(s) || (s.downStarted && s.down.pc != Exited))
    ensures var a := WindDownStep(s); Enabled(s, a) && Do(s, a).cancelled && Rank(Do(s, a)) < Rank(s)
  {}

  lemma {:induction false} MainWindsDown(s: State)
    requires Inv(s) && s.cancelled && !Done(s) && !(Alive(s) || (s.downStarted && s.down.pc != Exited))
    ensures var a := WindDownStep(s); Enabled(s, a) && Do(s, a).cancelled && Rank(Do(s, a)) < Rank(s)
  {}

  lemma {:induction false} WindDown(s: State) returns (steps: seq<Step>)
    requires Inv(s) && s.cancelled
    ensures Run(s, steps) && Done(End(s, steps)) && Inv(End(s, steps)) && |steps| <= Rank(s)
    decreases Rank(s)
  {
    if Done(s) {
      steps := [];
    } else {
      var a := WindDownStep(s);
      if Alive(s) || (s.downStarted && s.down.pc != Exited) { LoopWindsDown(s); } else { MainWindsDown(s); }
      InvStep(s, a);
      var rest := WindDown(Do(s, a));
      steps := [a] + rest;
      assert steps[1..] == rest;
    }
  }

  /** From every reachable state of a cancelled session, wherever its goroutines are, the
      main loop and the read loops can finish within six steps of their own: Run returns, every
      loop has exited and every upstream has been given back. */
  lemma {:induction false} ClosingFinishes(steps: seq<Step>) returns (more: seq<Step>)
    requires Run(INIT, steps) && End(INIT, steps).cancelled
    ensures Run(End(INIT, steps), more) && |more| <= 6
    ensures var s := End(End(INIT, steps), more);
            && s.main == Returned && !s.held && s.released == |s.ups|
            && (s.downStarted ==> s.down.pc == Exited) && forall i :: 0 <= i < |s.ups| ==> s.ups[i].pc == Exited
  {
    InvRun(INIT, steps);
    more := WindDown(End(INIT, steps));
  }

  /** Acknowledging cannot block either: the loop takes it or the session is being closed. */
  lemma {:induction false} AckNeverStuck(steps: seq<Step>)
    requires Run(INIT, steps)
    ensures var s := End(INIT, steps);
            && (s.main.AckingDown? ==> Enabled(s, AckDown) || s.cancelled)
            && (s.main.AckingUp? ==> Enabled(s, AckUp(s.main.loop)) || s.cancelled)
  {
    InvRun(INIT, steps);
  }
}
