/** Returning an upstream connection: Sync, drain to ReadyForQuery, ROLLBACK if a transaction
    is open, DISCARD ALL; and back to the pool only if all of that succeeded. */
module Reset {
  datatype Status = I | T | E
  datatype Msg = Ready(status: Status) | CommandComplete | ErrorResponse | Other

  predicate Noise(m: Msg) { m.CommandComplete? || m.ErrorResponse? }

  ghost predicate Silent(u: seq<Msg>) {
    CommandComplete !in u && ErrorResponse !in u
  }

  ghost predicate NoReady(u: seq<Msg>) {
    forall i :: 0 <= i < |u| ==> !u[i].Ready?
  }

  ghost predicate NoError(u: seq<Msg>) {
    ErrorResponse !in u
  }

  /** A reply up to and including its only ReadyForQuery. */
  ghost predicate Block(b: seq<Msg>) {
    b != [] && b[|b| - 1].Ready? && NoReady(b[..|b| - 1])
  }

  /** How the backend answers ROLLBACK or DISCARD ALL: with CommandComplete or an error, then
      ReadyForQuery; or it breaks off before. */
  ghost predicate QueryReply(b: seq<Msg>) {
    NoReady(b) || (Block(b) && !Silent(b))
  }

  ghost predicate Executed(b: seq<Msg>) {
    Block(b) && NoError(b)
  }

  // ---------- reading ----------

  /** Where reading up to the first ReadyForQuery ends; 0 if there is none. */
  function DrainEnd(u: seq<Msg>, from: nat): (n: nat)
    requires from <= |u|
    ensures n == 0 || (from < n <= |u| && u[n - 1].Ready?)
    ensures forall i :: from <= i < (if n == 0 then |u| else n - 1) ==> !u[i].Ready?
    decreases |u| - from
  {
    if from == |u| then 0 else if u[from].Ready? then from + 1 else DrainEnd(u, from + 1)
  }

  /** Where reading up to the first ReadyForQuery after a CommandComplete or an error ends;
      0 if there is none. */
  function QueryEnd(u: seq<Msg>, from: nat, seen: bool): (n: nat)
    requires from <= |u|
    ensures n == 0 || (from < n <= |u| && u[n - 1].Ready?)
    decreases |u| - from
  {
    if from == |u| then 0
    else if u[from].Ready? && seen then from + 1
    else QueryEnd(u, from + 1, seen || Noise(u[from]))
  }

  function LastStatus(u: seq<Msg>, from: nat, tx: Status): Status
    requires from <= |u|
    decreases |u| - from
  {
    if from == |u| then tx else LastStatus(u, from + 1, if u[from].Ready? then u[from].status else tx)
  }

  /** A reading of `n` messages from `u`. */
  datatype Reading = Reading(ok: bool, unread: seq<Msg>, tx: Status)

  ghost function Drain(u: seq<Msg>, tx: Status): Reading {
    var n := DrainEnd(u, 0);
    if n == 0 then Reading(false, [], tx) else Reading(true, u[n..], u[n - 1].status)
  }

  ghost function SimpleQuery(u: seq<Msg>, tx: Status): Reading {
    var n := QueryEnd(u, 0, false);
    if n == 0 then Reading(false, [], LastStatus(u, 0, tx)) else Reading(NoError(u[..n]), u[n..], u[n - 1].status)
  }

  /** The whole reset. `backlog` is what the backend still sends for everything before and
      including the Sync; `rollback` and `discard` answer the two commands if they are sent. */
  ghost function ResetResult(
    backlog: seq<Msg>, tx: Status, rollback: seq<Msg>, discard: seq<Msg>, discardAll: bool): Reading
  {
    var a := Drain(backlog, tx);
    if !a.ok then a
    else
      var b := if a.tx == I then a else SimpleQuery(a.unread + rollback, a.tx);
      if !b.ok || !discardAll then b else SimpleQuery(b.unread + discard, b.tx)
  }

  datatype Fate = InUse | Pooled | Killed

  class SessionClient {
    const discardAll: bool
    var unread: seq<Msg>
    var tx: Status
    var fate: Fate

    constructor (discardAll: bool, unread: seq<Msg>, tx: Status)
      ensures this.discardAll == discardAll && this.unread == unread && this.tx == tx && fate == InUse
    {
      this.discardAll, this.unread, this.tx, fate := discardAll, unread, tx, InUse;
    }

    /** Fails when nothing arrives before the timeout. */
    method Receive() returns (ok: bool, m: Msg)
      modifies this`unread, this`tx
      ensures ok <==> old(unread) != []
      ensures ok ==> m == old(unread)[0] && unread == old(unread)[1..] && tx == if m.Ready? then m.status else old(tx)
      ensures !ok ==> unread == [] && tx == old(tx)
    {
      if unread == [] { return false, Other; }
      ok, m, unread := true, unread[0], unread[1..];
      if m.Ready? { tx := m.status; }
    }

    method DrainToReady() returns (ok: bool)
      modifies this`unread, this`tx
      ensures Reading(ok, unread, tx) == Drain(old(unread), old(tx))
    {
      ghost var u, k := unread, 0;
      while true
        invariant 0 <= k <= |u| && unread == u[k..] && tx == old(tx) && DrainEnd(u, 0) == DrainEnd(u, k)
        decreases |unread|
      {
        var received, m := Receive();
        if !received { return false; }
        k := k + 1;
        if m.Ready? { return true; }
      }
    }

    method RunQuery(reply: seq<Msg>) returns (ok: bool)
      modifies this`unread, this`tx
      ensures Reading(ok, unread, tx) == SimpleQuery(old(unread) + reply, old(tx))
    {
      unread := unread + reply;
      ghost var u, k := unread, 0;
      var commandCompleteSeen, failed := false, false;
      while true
        invariant 0 <= k <= |u| && unread == u[k..]
        invariant QueryEnd(u, 0, false) == QueryEnd(u, k, commandCompleteSeen)
        invariant LastStatus(u, 0, old(tx)) == LastStatus(u, k, tx)
        invariant failed <==> !NoError(u[..k])
        decreases |unread|
      {
        var received, m := Receive();
        if !received { return false; }
        k := k + 1;
        NoErrorSnoc(u, k);
        if m.Ready? && commandCompleteSeen { return !failed; }
        if Noise(m) { commandCompleteSeen := true; }
        if m.ErrorResponse? { failed := true; }
      }
    }

    method Reset(syncReply: seq<Msg>, rollbackReply: seq<Msg>, discardReply: seq<Msg>) returns (ok: bool)
      modifies this`unread, this`tx
      ensures Reading(ok, unread, tx) == ResetResult(old(unread) + syncReply, old(tx), rollbackReply, discardReply, discardAll)
    {
      unread := unread + syncReply;
      ok := DrainToReady();
      if !ok { return; }
      if tx != I {
        ok := RunQuery(rollbackReply);
        if !ok { return; }
      }
      if discardAll {
        ok := RunQuery(discardReply);
      }
    }

    /** Back to the pool exactly when the reset succeeded; otherwise the session kills it. */
    method ReleaseOrKill(syncReply: seq<Msg>, rollbackReply: seq<Msg>, discardReply: seq<Msg>)
      requires fate == InUse
      modifies this
      ensures var r := ResetResult(old(unread) + syncReply, old(tx), rollbackReply, discardReply, discardAll);
              fate == (if r.ok then Pooled else Killed) && unread == r.unread && tx == r.tx
    {
      var ok := Reset(syncReply, rollbackReply, discardReply);
      fate := if ok then Pooled else Killed;
    }
  }

  lemma {:induction false} NoErrorSnoc(u: seq<Msg>, k: nat)
    requires 0 < k <= |u|
    ensures NoError(u[..k]) <==> NoError(u[..k - 1]) && !u[k - 1].ErrorResponse?
  {
    assert u[..k] == u[..k - 1] + [u[k - 1]];
  }

  // ---------- what a reset achieves ----------

  /** No ReadyForQuery comes after a CommandComplete or an error. */
  ghost predicate Settled(u: seq<Msg>) {
    forall i, j :: 0 <= i < j < |u| && Noise(u[i]) ==> !u[j].Ready?
  }

  /** A settled tail is skipped and the command's own reply is read to its end. */
  lemma {:induction false} QueryEndSkips(tail: seq<Msg>, reply: seq<Msg>, from: nat, seen: bool)
    requires Settled(tail) && QueryReply(reply) && from <= |tail + reply|
    requires Block(reply) ==> from < |tail + reply|
    requires seen <==> !Silent((tail + reply)[..from])
    ensures QueryEnd(tail + reply, from, seen) == if Block(reply) then |tail + reply| else 0
    decreases |tail + reply| - from
  {
    var u := tail + reply;
    if from < |u| {
      assert u[..from + 1] == u[..from] + [u[from]];
      if from < |tail| && seen {
        NoisyBefore(u, from);
        var i :| 0 <= i < from && Noise(u[i]);
        assert Noise(tail[i]) && u[from] == tail[from];
      }
      if Block(reply) && |tail| <= from {
        assert from < |u| - 1 ==> reply[..|reply| - 1][from - |tail|] == u[from];
        ReplyNoise(tail, reply);
      }
      if !(Block(reply) && from == |u| - 1) {
        QueryEndSkips(tail, reply, from + 1, seen || Noise(u[from]));
      }
    }
  }

  lemma {:induction false} NoisyBefore(u: seq<Msg>, k: nat)
    requires k <= |u| && !Silent(u[..k])
    ensures exists i :: 0 <= i < k && Noise(u[i])
  {
    var m :| m in u[..k] && Noise(m);
    var i :| 0 <= i < k && u[..k][i] == m;
    assert Noise(u[i]);
  }

  /** Before its ReadyForQuery a command's reply makes noise. */
  lemma {:induction false} ReplyNoise(tail: seq<Msg>, reply: seq<Msg>)
    requires QueryReply(reply) && Block(reply)
    ensures !Silent((tail + reply)[..|tail + reply| - 1])
  {
    var m := if CommandComplete in reply then CommandComplete else ErrorResponse;
    assert m in reply && m != reply[|reply| - 1];
    var i :| 0 <= i < |reply| && reply[i] == m;
    assert (tail + reply)[..|tail + reply| - 1][|tail| + i] == m;
  }

  /** With a settled tail ahead of the reply, a command succeeds exactly when it was executed
      and the tail has no error, and then nothing is left unread. */
  lemma {:induction false} QueryAfterSettled(tail: seq<Msg>, reply: seq<Msg>, tx: Status)
    requires Settled(tail) && QueryReply(reply)
    ensures var r := SimpleQuery(tail + reply, tx);
            && (r.ok <==> NoError(tail) && Executed(reply))
            && (r.ok ==> r.unread == [] && r.tx == reply[|reply| - 1].status)
  {
    assert Block(reply) ==> |reply| > 0;
    QueryEndSkips(tail, reply, 0, false);
    assert (tail + reply)[..|tail + reply|] == tail + reply;
  }

  /** A tail that is not settled is mistaken for the command's own reply: something is left
      unread. */
  lemma {:induction false} QueryAfterNoise(tail: seq<Msg>, reply: seq<Msg>, tx: Status)
    requires !Settled(tail)
    ensures var n := QueryEnd(tail + reply, 0, false);
            && 0 < n <= |tail|
            && SimpleQuery(tail + reply, tx).unread == tail[n..] + reply
  {
    var i, j :| 0 <= i < j < |tail| && Noise(tail[i]) && tail[j].Ready?;
    NoiseEnds(tail, reply, 0, false, i, j);
    var n := QueryEnd(tail + reply, 0, false);
    assert (tail + reply)[n..] == tail[n..] + reply;
  }

  lemma {:induction false} NoiseEnds(tail: seq<Msg>, reply: seq<Msg>, from: nat, seen: bool, i: nat, j: nat)
    requires from <= j < |tail| && tail[j].Ready? && (seen || (from <= i < j && Noise(tail[i])))
    ensures 0 < QueryEnd(tail + reply, from, seen) <= |tail|
    decreases |tail| - from
  {
    assert (tail + reply)[from] == tail[from];
    if !(tail[from].Ready? && seen) {
      NoiseEnds(tail, reply, from + 1, seen || Noise(tail[from]), i, j);
    }
  }

  /** The messages left when the drain stops. */
  ghost function Tail(backlog: seq<Msg>): seq<Msg> {
    backlog[DrainEnd(backlog, 0)..]
  }

  ghost predicate OpenTransaction(backlog: seq<Msg>) {
    var n := DrainEnd(backlog, 0);
    n > 0 && backlog[n - 1].status != I
  }

  /** Nothing unread, the backend idle, and the commands that were due really executed. */
  ghost predicate Clean(r: Reading, backlog: seq<Msg>, rollback: seq<Msg>, discard: seq<Msg>, discardAll: bool) {
    && r.unread == [] && r.tx == I
    && (discardAll ==> Executed(discard)) && (OpenTransaction(backlog) ==> Executed(rollback))
  }

  /** The backend: an executed ROLLBACK or DISCARD ALL leaves it idle. */
  ghost predicate Obeys(reply: seq<Msg>) {
    QueryReply(reply) && (Executed(reply) ==> reply[|reply| - 1].status == I)
  }

  /** A command is sent after the drain. */
  ghost predicate SendsCommand(backlog: seq<Msg>, discardAll: bool) {
    discardAll || OpenTransaction(backlog)
  }

  /** For every stream of replies: when the drain leaves a settled tail, the reset succeeds
      exactly when its commands, if any, were executed and found no error in the tail; and a
      reset that sends a command is then clean. */
  lemma {:induction false} SettledTailResets(
    backlog: seq<Msg>, tx: Status, rollback: seq<Msg>, discard: seq<Msg>, discardAll: bool)
    requires DrainEnd(backlog, 0) > 0 && Obeys(rollback) && Obeys(discard) && Settled(Tail(backlog))
    ensures var r := ResetResult(backlog, tx, rollback, discard, discardAll);
            && (r.ok <==> && (SendsCommand(backlog, discardAll) ==> NoError(Tail(backlog)))
                          && (discardAll ==> Executed(discard)) && (OpenTransaction(backlog) ==> Executed(rollback)))
            && (r.ok && SendsCommand(backlog, discardAll) ==> Clean(r, backlog, rollback, discard, discardAll))
  {
    var a := Drain(backlog, tx);
    if a.tx == I {
      QueryAfterSettled(a.unread, discard, a.tx);
    } else {
      QueryAfterSettled(a.unread, rollback, a.tx);
      QueryAfterSettled([], discard, I);
      assert [] + discard == discard;
    }
  }

  /** Otherwise a reset that reports success is never clean. */
  lemma {:induction false} UnsettledTailLeaks(
    backlog: seq<Msg>, tx: Status, rollback: seq<Msg>, discard: seq<Msg>, discardAll: bool)
    requires DrainEnd(backlog, 0) > 0 && Obeys(rollback) && Obeys(discard) && !Settled(Tail(backlog))
    ensures var r := ResetResult(backlog, tx, rollback, discard, discardAll);
            r.ok ==> !Clean(r, backlog, rollback, discard, discardAll)
  {
    var a := Drain(backlog, tx);
    var tail := a.unread;
    if a.tx == I {
      QueryAfterNoise(tail, discard, a.tx);
    } else {
      QueryAfterNoise(tail, rollback, a.tx);
      var b := SimpleQuery(tail + rollback, a.tx);
      if Executed(rollback) {
        ReplyUnsettled(b.unread[..|b.unread| - |rollback|], rollback);
        assert b.unread[..|b.unread| - |rollback|] + rollback == b.unread;
        QueryAfterNoise(b.unread, discard, b.tx);
      }
    }
  }

  lemma {:induction false} ReplyUnsettled(head: seq<Msg>, reply: seq<Msg>)
    requires QueryReply(reply) && Block(reply)
    ensures !Settled(head + reply)
  {
    ReplyNoise(head, reply);
    var u := head + reply;
    NoisyBefore(u, |u| - 1);
    var i :| 0 <= i < |u| - 1 && Noise(u[i]);
    assert u[|u| - 1].Ready?;
  }

  /** For every backlog, a successful reset is clean exactly when the drain left a settled
      tail or, if no command follows it, nothing. */
  lemma {:induction false} CleanExactlyWhenSettled(
    backlog: seq<Msg>, tx: Status, rollback: seq<Msg>, discard: seq<Msg>, discardAll: bool)
    requires Obeys(rollback) && Obeys(discard) && ResetResult(backlog, tx, rollback, discard, discardAll).ok
    ensures Clean(ResetResult(backlog, tx, rollback, discard, discardAll), backlog, rollback, discard, discardAll) <==>
            if SendsCommand(backlog, discardAll) then Settled(Tail(backlog)) else Tail(backlog) == []
  {
    if Settled(Tail(backlog)) {
      SettledTailResets(backlog, tx, rollback, discard, discardAll);
    } else {
      UnsettledTailLeaks(backlog, tx, rollback, discard, discardAll);
    }
  }

  /** The reply to our own Sync, or nothing when it is missing. */
  ghost predicate SyncReply(sync: seq<Msg>) {
    |sync| <= 1 && forall m :: m in sync ==> m.Ready?
  }

  /** At most one Query or Sync is unanswered: `first` is its reply, if there is one, and
      `later` what the messages sent after it, without a Sync, produce. A successful reset is
      then clean exactly when there was no such reply, or the reply to our own Sync is missing,
      or the later messages neither complete nor fail; if no command follows the drain, when
      nothing comes after that reply. */
  lemma {:induction false} ReleaseIsClean(
    first: seq<Msg>, later: seq<Msg>, sync: seq<Msg>, tx: Status, rollback: seq<Msg>, discard: seq<Msg>, discardAll: bool)
    requires (NoReady(first) || Block(first)) && NoReady(later) && SyncReply(sync) && Obeys(rollback) && Obeys(discard)
    requires ResetResult(first + later + sync, tx, rollback, discard, discardAll).ok
    ensures var backlog := first + later + sync;
            Clean(ResetResult(backlog, tx, rollback, discard, discardAll), backlog, rollback, discard, discardAll) <==>
            NoReady(first) || (if SendsCommand(backlog, discardAll) then sync == [] || Silent(later) else later + sync == [])
  {
    var backlog := first + later + sync;
    CleanExactlyWhenSettled(backlog, tx, rollback, discard, discardAll);
    TailSettled(first, later, sync);
  }

  lemma {:induction false} TailSettled(first: seq<Msg>, later: seq<Msg>, sync: seq<Msg>)
    requires (NoReady(first) || Block(first)) && NoReady(later) && SyncReply(sync)
    requires DrainEnd(first + later + sync, 0) > 0
    ensures Settled(Tail(first + later + sync)) <==> NoReady(first) || sync == [] || Silent(later)
    ensures Tail(first + later + sync) == [] <==> NoReady(first) || later + sync == []
  {
    if NoReady(first) {
      NothingAfterSync(first + later, sync);
    } else {
      FirstReady(first, later + sync);
      assert first + later + sync == first + (later + sync);
      LaterSettled(later, sync);
    }
  }

  lemma {:induction false} NothingAfterSync(owed: seq<Msg>, sync: seq<Msg>)
    requires NoReady(owed) && SyncReply(sync) && DrainEnd(owed + sync, 0) > 0
    ensures Tail(owed + sync) == []
  {
    var u := owed + sync;
    assert forall i :: 0 <= i < |owed| ==> u[i] == owed[i];
  }

  lemma {:induction false} FirstReady(first: seq<Msg>, rest: seq<Msg>)
    requires Block(first)
    ensures DrainEnd(first + rest, 0) == |first| && Tail(first + rest) == rest
  {
    var u := first + rest;
    assert u[|first| - 1] == first[|first| - 1];
    assert forall i :: 0 <= i < |first| - 1 ==> u[i] == first[..|first| - 1][i];
  }

  lemma {:induction false} LaterSettled(later: seq<Msg>, sync: seq<Msg>)
    requires NoReady(later) && SyncReply(sync)
    ensures Settled(later + sync) <==> sync == [] || Silent(later)
  {
    var u := later + sync;
    if sync != [] && !Silent(later) {
      assert u[..|later|] == later;
      NoisyBefore(u, |later|);
      var i :| 0 <= i < |later| && Noise(u[i]);
      assert sync[0] in sync && u[|later|] == sync[0];
    }
  }

  /** In particular with nothing sent after the last Query or Sync. */
  lemma {:induction false} SyncedReleaseIsClean(
    first: seq<Msg>, sync: seq<Msg>, tx: Status, rollback: seq<Msg>, discard: seq<Msg>)
    requires (NoReady(first) || Block(first)) && SyncReply(sync) && Obeys(rollback) && Obeys(discard)
    ensures var r := ResetResult(first + sync, tx, rollback, discard, true);
            r.ok ==> Clean(r, first + sync, rollback, discard, true)
  {
    assert first + [] + sync == first + sync;
    if ResetResult(first + sync, tx, rollback, discard, true).ok {
      ReleaseIsClean(first, [], sync, tx, rollback, discard, true);
    }
  }

  /** One unanswered query and an Execute that no Sync followed leak as well. */
  lemma {:induction false} UnsyncedLeak(status: Status, rollback: seq<Msg>, discard: seq<Msg>)
    requires Obeys(rollback) && Executed(discard) && Obeys(discard)
    ensures var backlog := [CommandComplete, Ready(I)] + [CommandComplete] + [Ready(status)];
            var r := ResetResult(backlog, I, rollback, discard, true);
            r.ok && r.unread == discard
  {
    var backlog := [CommandComplete, Ready(I)] + [CommandComplete] + [Ready(status)];
    assert backlog == [CommandComplete, Ready(I), CommandComplete, Ready(status)];
    assert DrainEnd(backlog, 1) == 2;
    assert DrainEnd(backlog, 0) == 2;
    var u := backlog[2..] + discard;
    assert u[0] == CommandComplete && u[1] == Ready(status);
    assert QueryEnd(u, 1, true) == 2;
    assert QueryEnd(u, 0, false) == 2;
    assert u[2..] == discard;
  }

  /** Two unanswered queries are one too many: DISCARD ALL's reply is still unread when the
      connection goes back to the pool. */
  lemma {:induction false} TwoUnansweredLeak()
    ensures var query := [CommandComplete, Ready(I)];
            var r := ResetResult(query + query + [Ready(I)], I, [], query, true);
            r.ok && r.unread == [Ready(I)] + query
  {
    var query := [CommandComplete, Ready(I)];
    var backlog := query + query + [Ready(I)];
    assert backlog == [CommandComplete, Ready(I), CommandComplete, Ready(I), Ready(I)];
    assert DrainEnd(backlog, 1) == 2;
    assert DrainEnd(backlog, 0) == 2;
    var u := backlog[2..] + query;
    assert u == [CommandComplete, Ready(I), Ready(I), CommandComplete, Ready(I)];
    assert QueryEnd(u, 1, true) == 2;
    assert QueryEnd(u, 0, false) == 2;
    assert u[2..] == [Ready(I)] + query;
  }
}
