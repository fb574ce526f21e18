/** The policy engine: a four-state hysteresis machine per policy and node, fed by the
    health, lag and saturation verdicts. Times are nanoseconds. */
module Policy {
  import opened Options
  import opened Topology

  datatype State = Clean | Pending | Active | Releasing
  datatype PerNode = PerNode(state: State, enteredAt: int, lastCondition: string)
  datatype Timing = Timing(dwellMs: nat, releaseMs: nat) {
    function Dwell(): nat { dwellMs * NANOS_PER_MS }
    function Release(): nat { releaseMs * NANOS_PER_MS }
  }
  datatype Verdict = Verdict(reject: bool, reason: string)
  datatype Template = HealthFilter | LagFilter | PoolSaturation | OtherTemplate
  datatype Instance = Instance(template: Template, parameters: map<string, int>, timing: Timing)

  const FRESH := PerNode(Clean, 0, "")

  predicate Eligible(p: PerNode) {
    p.state != Active && p.state != Releasing
  }

  // ---------- verdicts ----------

  function Health(v: NodeView): Verdict {
    match v.liveness
    case Up => Verdict(false, "")
    case Degraded => Verdict(true, "liveness:degraded")
    case Down => Verdict(true, "liveness:down")
    case LivenessUnknown => Verdict(true, "liveness:unknown")
  }

  function Lag(v: NodeView, parameters: map<string, int>): Verdict {
    var threshold := if "threshold_ms" in parameters then parameters["threshold_ms"] else 100;
    if v.observedRole != Replica then Verdict(false, "")
    else
      match v.lagState
      case Fresh =>
        if v.lagMs.Some? && v.lagMs.value > threshold then Verdict(true, "lag:above_threshold")
        else Verdict(false, "")
      case LagUnknown => Verdict(true, "lag:unknown")
      case Stale => Verdict(true, "lag:unknown")
      case LagIdle => Verdict(true, "lag:idle")
      case NotApplicable => Verdict(false, "")
  }

  function Saturation(saturated: bool): Verdict {
    if saturated then Verdict(true, "pool:saturated") else Verdict(false, "")
  }

  function Judge(inst: Instance, v: NodeView, saturated: bool): Verdict
    requires inst.template != OtherTemplate
  {
    match inst.template
    case HealthFilter => Health(v)
    case LagFilter => Lag(v, inst.parameters)
    case PoolSaturation => Saturation(saturated)
  }

  /** A reason is given exactly with a rejection. */
  ghost predicate Reasoned(v: Verdict) {
    v.reject <==> |v.reason| > 0
  }

  lemma RejectsWithReason(inst: Instance, v: NodeView, saturated: bool)
    requires inst.template != OtherTemplate
    ensures Reasoned(Judge(inst, v, saturated))
  {}

  // ---------- the machine ----------

  function Transition(p: PerNode, timing: Timing, v: Verdict, now: int): PerNode {
    match p.state
    case Clean =>
      if !v.reject then p
      else PerNode(if timing.Dwell() == 0 then Active else Pending, now, v.reason)
    case Pending =>
      if !v.reject then PerNode(Clean, p.enteredAt, "")
      else if now - p.enteredAt >= timing.Dwell() then PerNode(Active, now, v.reason)
      else p
    case Active =>
      if v.reject then p else PerNode(Releasing, now, "")
    case Releasing =>
      if v.reject then PerNode(Active, now, v.reason)
      else if timing.Release() == 0 || now - p.enteredAt >= timing.Release() then PerNode(Clean, p.enteredAt, "")
      else p
  }

  type States = map<string, map<NodeId, PerNode>>

  function Lookup(m: map<NodeId, PerNode>, id: NodeId): PerNode {
    if id in m then m[id] else FRESH
  }

  /** One evaluation of a node against every policy instance. */
  function Evaluated(states: States, instances: map<string, Instance>, v: NodeView, saturated: bool, now: int): States {
    map name | name in states ::
      if name in instances && instances[name].template != OtherTemplate then
        states[name][v.id := Transition(Lookup(states[name], v.id), instances[name].timing,
                                        Judge(instances[name], v, saturated), now)]
      else states[name]
  }

  /** `EvaluatePolicyState`. */
  function PolicyState(states: States, name: string, id: NodeId): (bool, string) {
    if name in states && id in states[name] then (Eligible(states[name][id]), states[name][id].lastCondition)
    else (true, "")
  }

  const DEFAULT_HEALTH := "default-health-filter"
  const DEFAULT_LAG := "default-lag-filter"
  const DEFAULT_SATURATION := "default-pool-saturation-rejection"

  /** What runs when the configuration does not define a policy of that name. */
  const DEFAULTS: map<string, Instance> :=
    map[DEFAULT_HEALTH := Instance(HealthFilter, map[], Timing(5000, 5000)),
        DEFAULT_LAG := Instance(LagFilter, map["threshold_ms" := 100], Timing(5000, 5000)),
        DEFAULT_SATURATION := Instance(PoolSaturation, map[], Timing(0, 0))]

  class Engine {
    var instances: map<string, Instance>
    var states: States

    ghost predicate Valid()
      reads this
    {
      states.Keys == instances.Keys
    }

    constructor (configured: map<string, Instance>)
      ensures Valid()
      ensures instances == DEFAULTS + configured
      ensures forall name :: name in states ==> states[name] == map[]
    {
      var all := configured;
      if DEFAULT_HEALTH !in all { all := all[DEFAULT_HEALTH := DEFAULTS[DEFAULT_HEALTH]]; }
      if DEFAULT_LAG !in all { all := all[DEFAULT_LAG := DEFAULTS[DEFAULT_LAG]]; }
      if DEFAULT_SATURATION !in all { all := all[DEFAULT_SATURATION := DEFAULTS[DEFAULT_SATURATION]]; }
      assert all == DEFAULTS + configured;
      instances := all;
      states := map name | name in all :: map[];
    }

    method Step(name: string, id: NodeId, v: Verdict, now: int)
      requires Valid() && name in instances
      modifies this`states
      ensures Valid()
      ensures states == old(states)[name := old(states)[name][id :=
                          Transition(Lookup(old(states)[name], id), instances[name].timing, v, now)]]
    {
      var timing := instances[name].timing;
      var p := FRESH;
      if id in states[name] { p := states[name][id]; }
      var next, enteredAt, condition := p.state, p.enteredAt, p.lastCondition;
      match p.state {
        case Clean =>
          if v.reject {
            next := if timing.Dwell() == 0 then Active else Pending;
            enteredAt, condition := now, v.reason;
          }
        case Pending =>
          if v.reject {
            if now - p.enteredAt >= timing.Dwell() { next, condition := Active, v.reason; }
          } else {
            next, condition := Clean, "";
          }
        case Active =>
          if !v.reject { next, enteredAt, condition := Releasing, now, ""; }
        case Releasing =>
          if v.reject {
            next, condition := Active, v.reason;
          } else if timing.Release() == 0 || now - p.enteredAt >= timing.Release() {
            next, condition := Clean, "";
          }
      }
      if next != p.state && next != Clean { enteredAt := now; }
      states := states[name := states[name][id := PerNode(next, enteredAt, condition)]];
    }

    /** Instances are visited in any order. */
    method EvaluateNode(v: NodeView, saturated: bool, now: int)
      requires Valid()
      modifies this`states
      ensures Valid()
      ensures states == Evaluated(old(states), instances, v, saturated, now)
    {
      var rest := instances.Keys;
      ghost var goal := Evaluated(states, instances, v, saturated, now);
      while rest != {}
        invariant Valid() && rest <= instances.Keys
        invariant forall name :: name in states ==> states[name] == if name in rest then old(states)[name] else goal[name]
        decreases rest
      {
        var name :| name in rest;
        rest := rest - {name};
        var inst := instances[name];
        if inst.template != OtherTemplate {
          Step(name, v.id, Judge(inst, v, saturated), now);
        }
      }
    }
  }

  // ---------- histories ----------

  datatype Obs = Obs(at: int, verdict: Verdict)

  ghost function After(timing: Timing, obs: seq<Obs>): PerNode {
    if obs == [] then FRESH
    else Transition(After(timing, obs[..|obs| - 1]), timing, obs[|obs| - 1].verdict, obs[|obs| - 1].at)
  }

  /** Where the unbroken run of equal verdicts that ends the history begins. */
  ghost function RunStart(obs: seq<Obs>): (s: nat)
    requires obs != []
    ensures s < |obs|
    ensures forall i :: s <= i < |obs| ==> obs[i].verdict.reject == obs[|obs| - 1].verdict.reject
    ensures s > 0 ==> obs[s - 1].verdict.reject != obs[|obs| - 1].verdict.reject
  {
    var n := |obs|;
    if n >= 2 && obs[n - 2].verdict.reject == obs[n - 1].verdict.reject then RunStart(obs[..n - 1]) else n - 1
  }

  ghost function Span(obs: seq<Obs>, i: nat): int
    requires i < |obs|
  {
    obs[i].at - obs[RunStart(obs[..i + 1])].at
  }

  /** Observation `i` ends an unbroken run of rejects that lasted at least dwell. */
  ghost predicate Convicts(timing: Timing, obs: seq<Obs>, i: nat)
    requires i < |obs|
  {
    obs[i].verdict.reject && (timing.Dwell() == 0 || Span(obs, i) >= timing.Dwell())
  }

  /** Observation `i` ends at least two consecutive clean ones that lasted at least release. */
  ghost predicate Acquits(timing: Timing, obs: seq<Obs>, i: nat)
    requires i < |obs|
  {
    && !obs[i].verdict.reject
    && RunStart(obs[..i + 1]) < i
    && (timing.Release() == 0 || Span(obs, i) >= timing.Release())
  }

  /** Convicted at some point and not acquitted since. */
  ghost predicate Guilty(timing: Timing, obs: seq<Obs>) {
    exists i :: 0 <= i < |obs| && GuiltySince(timing, obs, i)
  }

  lemma {:induction false} PrefixSame(timing: Timing, obs: seq<Obs>, i: nat)
    requires 1 <= |obs| && i < |obs| - 1
    ensures Convicts(timing, obs, i) == Convicts(timing, obs[..|obs| - 1], i)
    ensures Acquits(timing, obs, i) == Acquits(timing, obs[..|obs| - 1], i)
  {
    assert obs[..i + 1] == obs[..|obs| - 1][..i + 1];
  }

  ghost predicate GuiltySince(timing: Timing, obs: seq<Obs>, i: nat)
    requires i < |obs|
  {
    Convicts(timing, obs, i) && forall j :: i < j < |obs| ==> !Acquits(timing, obs, j)
  }

  lemma {:induction false} GuiltySinceStep(timing: Timing, obs: seq<Obs>, i: nat)
    requires i < |obs| - 1
    ensures GuiltySince(timing, obs, i) <==>
            GuiltySince(timing, obs[..|obs| - 1], i) && !Acquits(timing, obs, |obs| - 1)
  {
    PrefixSame(timing, obs, i);
    var n := |obs| - 1;
    if GuiltySince(timing, obs, i) {
      forall j | i < j < n ensures !Acquits(timing, obs[..n], j) { PrefixSame(timing, obs, j); }
    }
    if GuiltySince(timing, obs[..n], i) && !Acquits(timing, obs, n) {
      forall j | i < j < |obs| ensures !Acquits(timing, obs, j) {
        if j < n { PrefixSame(timing, obs, j); }
      }
    }
  }

  lemma {:induction false} GuiltyStep(timing: Timing, obs: seq<Obs>)
    requires obs != []
    ensures var n := |obs| - 1;
            Guilty(timing, obs) <==>
            Convicts(timing, obs, n) || (Guilty(timing, obs[..n]) && !Acquits(timing, obs, n))
  {
    var n := |obs| - 1;
    forall i | 0 <= i < n
      ensures GuiltySince(timing, obs, i) <==> GuiltySince(timing, obs[..n], i) && !Acquits(timing, obs, n)
    {
      GuiltySinceStep(timing, obs, i);
    }
    if Guilty(timing, obs) {
      var i :| 0 <= i < |obs| && GuiltySince(timing, obs, i);
      assert i < n ==> GuiltySince(timing, obs[..n], i);
    }
    if Guilty(timing, obs[..n]) && !Acquits(timing, obs, n) {
      var i :| 0 <= i < n && GuiltySince(timing, obs[..n], i);
      assert GuiltySince(timing, obs, i);
    }
    if Convicts(timing, obs, n) {
      assert GuiltySince(timing, obs, n);
    }
  }

  /** Over any history of observations a node is ineligible exactly when an unbroken run of
      rejects lasted at least dwell and, since then, no two or more consecutive clean
      observations lasted at least release. */
  lemma {:induction false} Hysteresis(timing: Timing, obs: seq<Obs>)
    ensures !Eligible(After(timing, obs)) <==> Guilty(timing, obs)
    ensures obs != [] ==>
              var p, last := After(timing, obs), obs[|obs| - 1];
              && (p.state in {Pending, Active} <==> last.verdict.reject)
              && (p.state in {Pending, Releasing} ==> p.enteredAt == obs[RunStart(obs)].at)
              && (p.state == Pending ==> timing.Dwell() > 0)
  {
    if obs != [] {
      var n := |obs| - 1;
      Hysteresis(timing, obs[..n]);
      GuiltyStep(timing, obs);
      assert obs[..n + 1] == obs;
    }
  }

  /** What a single observation turns around: a conviction makes an eligible node ineligible,
      an acquittal makes an ineligible node eligible, and nothing else does either. */
  lemma {:induction false} Turning(timing: Timing, obs: seq<Obs>)
    requires obs != []
    ensures var n := |obs| - 1;
            var before, after := Eligible(After(timing, obs[..n])), Eligible(After(timing, obs));
            && (before ==> (!after <==> Convicts(timing, obs, n)))
            && (!before ==> (after <==> Acquits(timing, obs, n)))
  {
    var n := |obs| - 1;
    Hysteresis(timing, obs[..n]);
    Hysteresis(timing, obs);
    GuiltyStep(timing, obs);
  }

  ghost predicate AllReasoned(obs: seq<Obs>) {
    forall i :: 0 <= i < |obs| ==> Reasoned(obs[i].verdict)
  }

  /** The reason is non-empty exactly in Pending and Active. */
  lemma {:induction false} ReasonShown(timing: Timing, obs: seq<Obs>)
    requires AllReasoned(obs)
    ensures After(timing, obs).lastCondition != "" <==> After(timing, obs).state in {Pending, Active}
  {
    if obs != [] { ReasonShown(timing, obs[..|obs| - 1]); }
  }

  ghost predicate GivenIn(obs: seq<Obs>, from: nat, reason: string) {
    exists i :: from <= i < |obs| && obs[i].verdict.reason == reason
  }

  /** The reason shown is one that the current unbroken run of rejects gave. */
  lemma {:induction false} ReasonFromRun(timing: Timing, obs: seq<Obs>)
    requires obs != [] && obs[|obs| - 1].verdict.reject
    ensures GivenIn(obs, RunStart(obs), After(timing, obs).lastCondition)
  {
    var n := |obs| - 1;
    var before := obs[..n];
    Hysteresis(timing, before);
    if before != [] && before[n - 1].verdict.reject {
      ReasonFromRun(timing, before);
      var i :| RunStart(before) <= i < n && before[i].verdict.reason == After(timing, before).lastCondition;
      assert obs[i] == before[i];
    }
    assert obs[n].verdict.reason == After(timing, obs).lastCondition
           || After(timing, obs).lastCondition == After(timing, before).lastCondition;
  }

  // ---------- histories of the engine ----------

  datatype Evaluation = Evaluation(view: NodeView, saturated: bool, now: int)

  ghost function Unevaluated(instances: map<string, Instance>): States {
    map name | name in instances :: map[]
  }

  ghost function EvaluatedAll(instances: map<string, Instance>, evs: seq<Evaluation>): States {
    if evs == [] then Unevaluated(instances)
    else
      var last := evs[|evs| - 1];
      Evaluated(EvaluatedAll(instances, evs[..|evs| - 1]), instances, last.view, last.saturated, last.now)
  }

  /** What one policy observes of one node. */
  ghost function Observed(inst: Instance, id: NodeId, evs: seq<Evaluation>): (obs: seq<Obs>)
    requires inst.template != OtherTemplate
  {
    if evs == [] then []
    else
      var last := evs[|evs| - 1];
      Observed(inst, id, evs[..|evs| - 1])
      + if last.view.id == id then [Obs(last.now, Judge(inst, last.view, last.saturated))] else []
  }

  lemma {:induction false} EngineFollows(instances: map<string, Instance>, name: string, id: NodeId, evs: seq<Evaluation>)
    requires name in instances && instances[name].template != OtherTemplate
    ensures var states, obs := EvaluatedAll(instances, evs), Observed(instances[name], id, evs);
            && states.Keys == instances.Keys
            && Lookup(states[name], id) == After(instances[name].timing, obs)
  {
    if evs != [] {
      var n := |evs| - 1;
      EngineFollows(instances, name, id, evs[..n]);
      var inst, last := instances[name], evs[n];
      var before, states := EvaluatedAll(instances, evs[..n]), EvaluatedAll(instances, evs);
      var obs, now := Observed(inst, id, evs[..n]), Obs(last.now, Judge(inst, last.view, last.saturated));
      assert states.Keys == before.Keys;
      assert states[name] == before[name][last.view.id :=
               Transition(Lookup(before[name], last.view.id), inst.timing, now.verdict, now.at)];
      assert (obs + [now])[..|obs|] == obs;
      assert last.view.id != id ==> Observed(inst, id, evs) == obs;
    }
  }

  lemma {:induction false} ObservedReasons(inst: Instance, id: NodeId, evs: seq<Evaluation>)
    requires inst.template != OtherTemplate
    ensures AllReasoned(Observed(inst, id, evs))
  {
    if evs != [] {
      var last := evs[|evs| - 1];
      ObservedReasons(inst, id, evs[..|evs| - 1]);
      RejectsWithReason(inst, last.view, last.saturated);
      var before, obs := Observed(inst, id, evs[..|evs| - 1]), Observed(inst, id, evs);
      assert last.view.id != id ==> obs == before;
    }
  }

  /** What the engine answers after any sequence of evaluations of any nodes: a node is
      ineligible under a policy exactly when that policy's own observations of it convict it,
      and a reason is given exactly in Pending and Active. */
  lemma {:induction false} EngineHistories(instances: map<string, Instance>, name: string, id: NodeId, evs: seq<Evaluation>)
    requires name in instances && instances[name].template != OtherTemplate
    ensures var answer := PolicyState(EvaluatedAll(instances, evs), name, id);
            var timing, obs := instances[name].timing, Observed(instances[name], id, evs);
            && (!answer.0 <==> Guilty(timing, obs))
            && (answer.1 != "" <==> After(timing, obs).state in {Pending, Active})
            && (answer.1 != "" ==> obs != [] && GivenIn(obs, RunStart(obs), answer.1))
  {
    var timing, obs := instances[name].timing, Observed(instances[name], id, evs);
    EngineFollows(instances, name, id, evs);
    ObservedReasons(instances[name], id, evs);
    ReasonShown(timing, obs);
    Hysteresis(timing, obs);
    if obs != [] && obs[|obs| - 1].verdict.reject { ReasonFromRun(timing, obs); }
  }

  // ---------- flapping is bounded ----------

  ghost predicate Ordered(obs: seq<Obs>) {
    forall i, j :: 0 <= i < j < |obs| ==> obs[i].at <= obs[j].at
  }

  /** How often a node turns ineligible while `obs` is fed to a machine in state `p`. */
  ghost function Convictions(p: PerNode, timing: Timing, obs: seq<Obs>): nat
    decreases |obs|
  {
    if obs == [] then 0
    else
      var q := Transition(p, timing, obs[0].verdict, obs[0].at);
      (if Eligible(p) && !Eligible(q) then 1 else 0) + Convictions(q, timing, obs[1..])
  }

  ghost function Max(a: int, b: int): int { if a < b then b else a }

  /** No conviction can come before this time when the next observation is at `t`. */
  ghost function Earliest(p: PerNode, timing: Timing, t: int): int {
    var d, r := timing.Dwell(), timing.Release();
    match p.state
    case Clean => t + d
    case Pending => Max(t, p.enteredAt + d)
    case Active => t + r + d
    case Releasing => Max(t, p.enteredAt + r + d)
  }

  /** One observation either convicts, and then a full cycle lies ahead, or does not
      bring the next conviction closer. */
  lemma {:induction false} StepCost(p: PerNode, timing: Timing, v: Verdict, t: int, next: int)
    requires t <= next
    requires p.state in {Pending, Releasing} ==> p.enteredAt <= t
    ensures var q := Transition(p, timing, v, t);
            && (q.state in {Pending, Releasing} ==> q.enteredAt <= t)
            && if Eligible(p) && !Eligible(q)
               then Earliest(p, timing, t) <= t && Earliest(q, timing, next) == next + timing.Release() + timing.Dwell()
               else Earliest(p, timing, t) <= Earliest(q, timing, next)
  {}

  lemma {:induction false} ConvictionsTakeTime(p: PerNode, timing: Timing, obs: seq<Obs>)
    requires obs != [] && Ordered(obs)
    requires p.state in {Pending, Releasing} ==> p.enteredAt <= obs[0].at
    ensures var c := Convictions(p, timing, obs);
            c >= 1 ==> obs[|obs| - 1].at >= Earliest(p, timing, obs[0].at) + Cycles(timing, c - 1)
    decreases |obs|
  {
    var v, t, rest := obs[0].verdict, obs[0].at, obs[1..];
    var q := Transition(p, timing, v, t);
    if rest == [] {
      StepCost(p, timing, v, t, t);
    } else {
      StepCost(p, timing, v, t, rest[0].at);
      ConvictionsTakeTime(q, timing, rest);
    }
  }

  ghost function Cycles(timing: Timing, k: nat): nat {
    if k == 0 then 0 else Cycles(timing, k - 1) + timing.Dwell() + timing.Release()
  }

  lemma {:induction false} CyclesProduct(timing: Timing, k: nat)
    ensures Cycles(timing, k) == k * (timing.Dwell() + timing.Release())
  {
    if k > 0 { CyclesProduct(timing, k - 1); }
  }

  /** In a window of length T a node turns ineligible at most 1 + T / (dwell + release)
      times, whatever its state was when the window began. */
  lemma {:induction false} FlappingBounded(timing: Timing, before: seq<Obs>, window: seq<Obs>)
    requires window != [] && Ordered(before + window)
    requires timing.Dwell() + timing.Release() > 0
    ensures Convictions(After(timing, before), timing, window)
            <= 1 + (window[|window| - 1].at - window[0].at) / (timing.Dwell() + timing.Release())
  {
    var p := After(timing, before);
    Hysteresis(timing, before);
    OrderedParts(timing, before, window);
    ConvictionsTakeTime(p, timing, window);
    var c, m := Convictions(p, timing, window), timing.Dwell() + timing.Release();
    if c >= 1 {
      CyclesProduct(timing, c - 1);
      DivBound(c - 1, m, window[|window| - 1].at - window[0].at);
    } else {
      DivBound(0, m, window[|window| - 1].at - window[0].at);
    }
  }

  lemma {:induction false} OrderedParts(timing: Timing, before: seq<Obs>, window: seq<Obs>)
    requires window != [] && Ordered(before + window)
    ensures Ordered(window)
    ensures before != [] ==> before[RunStart(before)].at <= window[0].at
  {
    var all := before + window;
    forall i, j | 0 <= i < j < |window| ensures window[i].at <= window[j].at {
      assert window[i] == all[|before| + i] && window[j] == all[|before| + j];
    }
    if before != [] {
      assert before[RunStart(before)] == all[RunStart(before)] && window[0] == all[|before|];
    }
  }

  lemma {:induction false} DivBound(k: nat, m: nat, t: int)
    requires m > 0 && k * m <= t
    ensures k <= t / m
  {
    var q := t / m;
    assert (q + 1) * m == q * m + m;
    LessFromProduct(k, q + 1, m);
  }

  lemma {:induction false} LessFromProduct(a: int, b: int, m: nat)
    requires a * m < b * m
    ensures a < b
  {
  }
}
