/** The pipeline's decision counters under every interleaving of calls. Each call adds to the
    total, later to the counter of its outcome, then publishes: one addition to the published
    total and one to the counter keyed by port, outcome and reason. */
module Counters {
  import opened Decisions
  import Routing

  datatype Call =
    | Undecided
    | Decided(port: Port, kind: Kind, reason: string)
    | Announced(port: Port, kind: Kind, reason: string)
    | Finished

  datatype State = State(
    tally: Tally, published: nat, keyed: map<string, nat>, calls: seq<Call>, hasBus: bool)

  // ---------- sums ----------

  /** The keyed counters of one outcome kind, added up. */
  ghost function SumKeys(m: map<string, nat>, keys: set<string>, kind: Kind): nat
    requires keys <= m.Keys
    decreases |keys|
  {
    if keys == {} then 0
    else
      var k :| k in keys;
      (if HasKind(k, kind) then m[k] else 0) + SumKeys(m, keys - {k}, kind)
  }

  lemma {:induction false} SumKeysPick(m: map<string, nat>, keys: set<string>, kind: Kind, x: string)
    requires keys <= m.Keys && x in keys
    ensures SumKeys(m, keys, kind) == (if HasKind(x, kind) then m[x] else 0) + SumKeys(m, keys - {x}, kind)
    decreases |keys|
  {
    var k :| k in keys && SumKeys(m, keys, kind) == (if HasKind(k, kind) then m[k] else 0) + SumKeys(m, keys - {k}, kind);
    if k != x {
      SumKeysPick(m, keys - {k}, kind, x);
      SumKeysPick(m, keys - {x}, kind, k);
      assert keys - {k} - {x} == keys - {x} - {k};
    }
  }

  lemma {:induction false} SumKeysSame(m: map<string, nat>, n: map<string, nat>, keys: set<string>, kind: Kind)
    requires keys <= m.Keys && keys <= n.Keys && forall k :: k in keys ==> m[k] == n[k]
    ensures SumKeys(m, keys, kind) == SumKeys(n, keys, kind)
    decreases |keys|
  {
    if keys != {} {
      var k :| k in keys;
      SumKeysPick(m, keys, kind, k);
      SumKeysPick(n, keys, kind, k);
      SumKeysSame(m, n, keys - {k}, kind);
    }
  }

  lemma {:induction false} SumKeysIncrement(m: map<string, nat>, key: string, kind: Kind)
    ensures var n := Incremented(m, key);
            SumKeys(n, n.Keys, kind) == SumKeys(m, m.Keys, kind) + (if HasKind(key, kind) then 1 else 0)
  {
    var n := Incremented(m, key);
    var others := m.Keys - {key};
    assert n.Keys - {key} == others;
    SumKeysPick(n, n.Keys, kind, key);
    SumKeysSame(m, n, others, kind);
    if key in m {
      SumKeysPick(m, m.Keys, kind, key);
    } else {
      assert others == m.Keys;
    }
  }

  /** Calls, weighted. */
  ghost function Sum(calls: seq<Call>, weight: Call -> nat): nat {
    if calls == [] then 0 else Sum(calls[..|calls| - 1], weight) + weight(calls[|calls| - 1])
  }

  lemma {:induction false} SumUpdate(calls: seq<Call>, c: nat, call: Call, weight: Call -> nat)
    requires c < |calls|
    ensures Sum(calls[c := call], weight) == Sum(calls, weight) - weight(calls[c]) + weight(call)
  {
    var n := |calls| - 1;
    if c == n {
      assert calls[c := call][..n] == calls[..n];
    } else {
      assert calls[c := call][..n] == calls[..n][c := call];
      SumUpdate(calls[..n], c, call, weight);
    }
  }

  ghost function Open(): Call -> nat { (c: Call) => if c.Undecided? then 1 else 0 }
  ghost function Unpublished(): Call -> nat { (c: Call) => if c.Undecided? || c.Decided? then 1 else 0 }
  ghost function Unkeyed(kind: Kind): Call -> nat {
    (c: Call) => if (c.Decided? || c.Announced?) && c.kind == kind then 1 else 0
  }

  // ---------- interleavings ----------

  datatype Step =
    | Begin
    | Decide(c: nat, port: Port, kind: Kind, reason: string)
    | Announce(c: nat)
    | CountKey(c: nat)

  ghost predicate Enabled(s: State, a: Step) {
    match a
    case Begin => true
    case Decide(c, _, _, _) => c < |s.calls| && s.calls[c].Undecided?
    case Announce(c) => c < |s.calls| && s.calls[c].Decided?
    case CountKey(c) => c < |s.calls| && s.calls[c].Announced?
  }

  /** Without a bus nothing is published and the call ends when it is announced. */
  ghost function Do(s: State, a: Step): State
    requires Enabled(s, a)
  {
    match a
    case Begin => s.(tally := Started(s.tally), calls := s.calls + [Undecided])
    case Decide(c, port, kind, reason) =>
      s.(tally := Bump(s.tally, kind), calls := s.calls[c := Decided(port, kind, reason)])
    case Announce(c) =>
      var d := s.calls[c];
      if s.hasBus then s.(published := s.published + 1, calls := s.calls[c := Announced(d.port, d.kind, d.reason)])
      else s.(calls := s.calls[c := Finished])
    case CountKey(c) =>
      var d := s.calls[c];
      s.(keyed := Incremented(s.keyed, Key(d.port, d.kind, d.reason)), calls := s.calls[c := Finished])
  }

  /** A call that runs alone changes the counters exactly as one call of the pipeline does. */
  lemma {:induction false} CallAlone(s: State, port: Port, kind: Kind, reason: string)
    ensures var c := |s.calls|;
            var decided := Do(Do(s, Begin), Decide(c, port, kind, reason));
            var announced := Do(decided, Announce(c));
            var t := if s.hasBus then Do(announced, CountKey(c)) else announced;
            && t.calls == s.calls + [Finished]
            && t.tally == Bump(Started(s.tally), kind)
            && Routing.Published(t.published, t.keyed)
               == Routing.Publish(Routing.Published(s.published, s.keyed), s.hasBus, port, kind, reason)
  {
    var c := |s.calls|;
    var announced := Do(Do(Do(s, Begin), Decide(c, port, kind, reason)), Announce(c));
    assert s.hasBus ==> announced.calls[c] == Announced(port, kind, reason);
    assert (s.calls + [Undecided])[c := Finished] == s.calls + [Finished];
  }

  ghost predicate Inv(s: State) {
    && s.tally.total == s.tally.leased + s.tally.rejected + s.tally.fallback + Sum(s.calls, Open())
    && (s.hasBus ==> s.tally.total == s.published + Sum(s.calls, Unpublished()))
    && (s.hasBus ==> forall k: Kind :: Of(s.tally, k) == SumKeys(s.keyed, s.keyed.Keys, k) + Sum(s.calls, Unkeyed(k)))
  }

  lemma {:induction false} SumAppend(calls: seq<Call>, call: Call, weight: Call -> nat)
    ensures Sum(calls + [call], weight) == Sum(calls, weight) + weight(call)
  {
    assert (calls + [call])[..|calls|] == calls;
  }

  lemma {:induction false} KeyedStep(s: State, a: Step, k: Kind)
    requires Inv(s) && Enabled(s, a) && s.hasBus
    ensures var t := Do(s, a); Of(t.tally, k) == SumKeys(t.keyed, t.keyed.Keys, k) + Sum(t.calls, Unkeyed(k))
  {
    match a
    case Begin => SumAppend(s.calls, Undecided, Unkeyed(k));
    case Decide(c, port, kind, reason) => SumUpdate(s.calls, c, Decided(port, kind, reason), Unkeyed(k));
    case Announce(c) => SumUpdate(s.calls, c, Do(s, a).calls[c], Unkeyed(k));
    case CountKey(c) => CountKeyStep(s, c, k);
  }

  lemma {:induction false} CountKeyStep(s: State, c: nat, k: Kind)
    requires Inv(s) && Enabled(s, CountKey(c)) && s.hasBus
    ensures var t := Do(s, CountKey(c)); Of(t.tally, k) == SumKeys(t.keyed, t.keyed.Keys, k) + Sum(t.calls, Unkeyed(k))
  {
    var d := s.calls[c];
    SumUpdate(s.calls, c, Finished, Unkeyed(k));
    SumKeysIncrement(s.keyed, Key(d.port, d.kind, d.reason), k);
    KeyHasKind(d.port, d.kind, d.reason, k);
  }

  lemma {:induction false} TotalsStep(s: State, a: Step)
    requires Inv(s) && Enabled(s, a)
    ensures var t := Do(s, a);
            && t.tally.total == t.tally.leased + t.tally.rejected + t.tally.fallback + Sum(t.calls, Open())
            && (t.hasBus ==> t.tally.total == t.published + Sum(t.calls, Unpublished()))
  {
    match a
    case Begin =>
      SumAppend(s.calls, Undecided, Open());
      SumAppend(s.calls, Undecided, Unpublished());
    case _ =>
      SumUpdate(s.calls, a.c, Do(s, a).calls[a.c], Open());
      SumUpdate(s.calls, a.c, Do(s, a).calls[a.c], Unpublished());
  }

  lemma {:induction false} InvStep(s: State, a: Step)
    requires Inv(s) && Enabled(s, a)
    ensures Inv(Do(s, a))
  {
    TotalsStep(s, a);
    if s.hasBus {
      forall k: Kind ensures Of(Do(s, a).tally, k) ==
          SumKeys(Do(s, a).keyed, Do(s, a).keyed.Keys, k) + Sum(Do(s, a).calls, Unkeyed(k))
      {
        KeyedStep(s, a, k);
      }
    }
  }

  ghost predicate Init(s: State) {
    s.tally == Tally(0, 0, 0, 0) && s.published == 0 && s.keyed == map[] && s.calls == []
  }

  ghost predicate Run(s: State, steps: seq<Step>)
    decreases |steps|
  {
    steps == [] || (Enabled(s, steps[0]) && Run(Do(s, steps[0]), steps[1..]))
  }

  ghost function End(s: State, steps: seq<Step>): State
    requires Run(s, steps)
    decreases |steps|
  {
    if steps == [] then s else End(Do(s, steps[0]), steps[1..])
  }

  lemma {:induction false} InvRun(s: State, steps: seq<Step>)
    requires Inv(s) && Run(s, steps)
    ensures Inv(End(s, steps))
    decreases |steps|
  {
    if steps != [] {
      InvStep(s, steps[0]);
      InvRun(Do(s, steps[0]), steps[1..]);
    }
  }

  lemma {:induction false} NothingLeft(calls: seq<Call>, weight: Call -> nat)
    requires weight(Finished) == 0 && forall c :: 0 <= c < |calls| ==> calls[c].Finished?
    ensures Sum(calls, weight) == 0
  {
    if calls != [] { NothingLeft(calls[..|calls| - 1], weight); }
  }

  /** In every interleaving the total is what was leased, rejected and fell back plus the calls
      still undecided; when all calls have ended and there is a bus, everything was published
      and the keyed counters of each kind add up to that kind's total. */
  lemma {:induction false} DecisionsAddUp(init: State, steps: seq<Step>)
    requires Init(init) && Run(init, steps)
    ensures var s := End(init, steps);
            && s.tally.total == s.tally.leased + s.tally.rejected + s.tally.fallback + Sum(s.calls, Open())
            && (s.hasBus && (forall c :: 0 <= c < |s.calls| ==> s.calls[c].Finished?) ==>
                  s.published == s.tally.total && forall k: Kind :: SumKeys(s.keyed, s.keyed.Keys, k) == Of(s.tally, k))
  {
    InvRun(init, steps);
    var s := End(init, steps);
    if s.hasBus && (forall c :: 0 <= c < |s.calls| ==> s.calls[c].Finished?) {
      NothingLeft(s.calls, Unpublished());
      forall k: Kind ensures SumKeys(s.keyed, s.keyed.Keys, k) == Of(s.tally, k) {
        NothingLeft(s.calls, Unkeyed(k));
      }
    }
  }
}
