/** The decisions bus under every interleaving of publishers, consumers, Subscribe, Unsub and
    Close. Publish checks `closed` under the write lock, releases it, and then sends under
    the read lock, one subscriber at a time. */
module Bus {
  type Event = string

  /** One subscriber's channel and counters, kept after it left. `dropped` counts every drop,
      `drops` those not yet drained. */
  datatype Sub = Sub(
    queue: seq<Event>, taken: seq<Event>, offered: seq<Event>, dropped: nat, drops: nat, drained: nat, chanClosed: bool)

  const FRESH := Sub([], [], [], 0, 0, 0, false)

  /** Between its two lock sections a publisher holds no lock. `owes`: the subscriber's drop
      is counted, the bus's not yet. */
  datatype Publisher = Idle | Checked(e: Event) | Sending(e: Event, rest: set<nat>, owes: bool)

  /** One send, as it was offered. */
  datatype Send = Send(p: nat, id: nat, e: Event)

  datatype State = State(
    subs: seq<Sub>,          // by identifier, in order of subscription
    live: set<nat>,          // the subscriber map
    closed: bool,
    droppedTotal: nat,
    publishers: seq<Publisher>,
    maxSubs: int,
    bufSize: nat,
    log: seq<Send>)          // every send so far, in order

  datatype Step =
    | Check(p: nat, event: Event)
    | StartSend(p: nat)
    | Offer(p: nat, id: nat)
    | HandOff(p: nat, id: nat)   // straight to a consumer blocked on the empty channel
    | CountDrop(p: nat)
    | EndSend(p: nat)
    | Subscribe
    | Unsub(id: nat)
    | CloseBus
    | Take(id: nat)
    | DrainDropped(id: nat)

  /** The write lock is free only when no publisher holds the read lock. */
  ghost predicate NoReaders(s: State) {
    forall p :: 0 <= p < |s.publishers| ==> !s.publishers[p].Sending?
  }

  ghost predicate Enabled(s: State, a: Step) {
    match a
    case Check(p, _) => p < |s.publishers| && s.publishers[p].Idle? && NoReaders(s)
    case StartSend(p) => p < |s.publishers| && s.publishers[p].Checked?
    case Offer(p, id) => Sends(s, p, id)
    case HandOff(p, id) => Sends(s, p, id) && s.subs[id].queue == []
    case CountDrop(p) => p < |s.publishers| && s.publishers[p].Sending? && s.publishers[p].owes
    case EndSend(p) =>
      p < |s.publishers| && s.publishers[p].Sending? && s.publishers[p].rest == {} && !s.publishers[p].owes
    case Subscribe => NoReaders(s)
    case Unsub(_) => NoReaders(s)
    case CloseBus => NoReaders(s)
    case Take(id) => id < |s.subs| && s.subs[id].queue != []
    case DrainDropped(id) => id < |s.subs|
  }

  /** The publisher is about to send to this subscriber. */
  ghost predicate Sends(s: State, p: nat, id: nat) {
    && p < |s.publishers| && s.publishers[p].Sending? && !s.publishers[p].owes
    && id in s.publishers[p].rest && id < |s.subs|
  }

  ghost function SetPublisher(s: State, p: nat, pub: Publisher): State
    requires p < |s.publishers|
  {
    s.(publishers := s.publishers[p := pub])
  }

  ghost function SetSub(s: State, id: nat, sub: Sub): State
    requires id < |s.subs|
  {
    s.(subs := s.subs[id := sub])
  }

  ghost function Logged(s: State, p: nat, id: nat, e: Event): State {
    s.(log := s.log + [Send(p, id, e)])
  }

  ghost function Do(s: State, a: Step): State
    requires Enabled(s, a)
  {
    match a
    case Check(p, e) => if s.closed then s else SetPublisher(s, p, Checked(e))
    case StartSend(p) => SetPublisher(s, p, Sending(s.publishers[p].e, s.live, false))
    case Offer(p, id) =>
      var pub, sub := s.publishers[p], s.subs[id];
      var room := |sub.queue| < s.bufSize;
      var sub' := sub.(offered := sub.offered + [pub.e]);
      SetPublisher(
        SetSub(Logged(s, p, id, pub.e), id, if room then sub'.(queue := sub.queue + [pub.e])
                      else sub'.(dropped := sub.dropped + 1, drops := sub.drops + 1)),
        p, pub.(rest := pub.rest - {id}, owes := !room))
    case HandOff(p, id) =>
      var pub, sub := s.publishers[p], s.subs[id];
      SetPublisher(SetSub(Logged(s, p, id, pub.e), id, sub.(offered := sub.offered + [pub.e], taken := sub.taken + [pub.e])),
                   p, pub.(rest := pub.rest - {id}))
    case CountDrop(p) =>
      SetPublisher(s.(droppedTotal := s.droppedTotal + 1), p, s.publishers[p].(owes := false))
    case EndSend(p) => SetPublisher(s, p, Idle)
    case Subscribe =>
      if s.closed || |s.live| >= s.maxSubs then s
      else s.(subs := s.subs + [FRESH], live := s.live + {|s.subs|})
    case Unsub(id) => s.(live := s.live - {id})
    case CloseBus =>
      s.(closed := true, live := {},
         subs := seq(|s.subs|, i requires 0 <= i < |s.subs| =>
                       if i in s.live then s.subs[i].(chanClosed := true) else s.subs[i]))
    case Take(id) =>
      var sub := s.subs[id];
      SetSub(s, id, sub.(queue := sub.queue[1..], taken := sub.taken + [sub.queue[0]]))
    case DrainDropped(id) =>
      SetSub(s, id, s.subs[id].(drained := s.subs[id].drained + s.subs[id].drops, drops := 0))
  }

  // ---------- invariants ----------

  ghost predicate IsSubsequence(a: seq<Event>, b: seq<Event>)
    decreases |b|
  {
    a == [] ||
    (b != [] &&
     ((a[|a| - 1] == b[|b| - 1] && IsSubsequence(a[..|a| - 1], b[..|b| - 1])) || IsSubsequence(a, b[..|b| - 1])))
  }

  lemma {:induction false} SubsequenceGrows(a: seq<Event>, b: seq<Event>, e: Event)
    requires IsSubsequence(a, b)
    ensures IsSubsequence(a, b + [e]) && IsSubsequence(a + [e], b + [e])
  {
    assert (b + [e])[..|b|] == b && (a + [e])[..|a|] == a;
  }

  ghost predicate SubOk(sub: Sub) {
    && |sub.offered| == |sub.taken| + |sub.queue| + sub.dropped
    && IsSubsequence(sub.taken + sub.queue, sub.offered)
    && sub.drops + sub.drained == sub.dropped
  }

  ghost function Drops(subs: seq<Sub>): nat {
    if subs == [] then 0 else Drops(subs[..|subs| - 1]) + subs[|subs| - 1].dropped
  }

  ghost function Owed(pubs: seq<Publisher>): nat {
    if pubs == [] then 0
    else Owed(pubs[..|pubs| - 1]) + (if pubs[|pubs| - 1].Sending? && pubs[|pubs| - 1].owes then 1 else 0)
  }

  ghost predicate LiveOk(s: State) {
    && (forall id :: id in s.live ==> id < |s.subs| && !s.subs[id].chanClosed)
    && (s.closed ==> s.live == {})
    && (forall p, id :: 0 <= p < |s.publishers| && s.publishers[p].Sending? && id in s.publishers[p].rest ==> id in s.live)
    && (s.live != {} ==> |s.live| <= s.maxSubs)
  }

  ghost predicate Inv(s: State) {
    && LiveOk(s)
    && (forall id :: 0 <= id < |s.subs| ==> SubOk(s.subs[id]))
    && Drops(s.subs) == s.droppedTotal + Owed(s.publishers)
  }

  lemma {:induction false} DropsUpdate(subs: seq<Sub>, id: nat, sub: Sub)
    requires id < |subs|
    ensures Drops(subs[id := sub]) == Drops(subs) - subs[id].dropped + sub.dropped
  {
    var n := |subs| - 1;
    if id == n {
      assert subs[id := sub][..n] == subs[..n];
    } else {
      assert subs[id := sub][..n] == subs[..n][id := sub];
      DropsUpdate(subs[..n], id, sub);
    }
  }

  lemma {:induction false} DropsSame(a: seq<Sub>, b: seq<Sub>)
    requires |a| == |b| && forall i :: 0 <= i < |a| ==> a[i].dropped == b[i].dropped
    ensures Drops(a) == Drops(b)
  {
    if a != [] { DropsSame(a[..|a| - 1], b[..|b| - 1]); }
  }

  ghost function Owes(pub: Publisher): nat { if pub.Sending? && pub.owes then 1 else 0 }

  lemma {:induction false} OwedUpdate(pubs: seq<Publisher>, p: nat, pub: Publisher)
    requires p < |pubs|
    ensures Owed(pubs[p := pub]) == Owed(pubs) - Owes(pubs[p]) + Owes(pub)
  {
    var n := |pubs| - 1;
    if p == n {
      assert pubs[p := pub][..n] == pubs[..n];
    } else {
      assert pubs[p := pub][..n] == pubs[..n][p := pub];
      OwedUpdate(pubs[..n], p, pub);
    }
  }

  lemma {:induction false} LiveIdStep(s: State, a: Step, id: nat)
    requires LiveOk(s) && Enabled(s, a) && id in Do(s, a).live
    ensures id < |Do(s, a).subs| && !Do(s, a).subs[id].chanClosed && !Do(s, a).closed
  {
    Subscriptions(s, a, id);
  }

  lemma {:induction false} LiveCountStep(s: State, a: Step)
    requires LiveOk(s) && Enabled(s, a)
    ensures Do(s, a).live != {} ==> |Do(s, a).live| <= Do(s, a).maxSubs
  {
    if a.Subscribe? && !s.closed && |s.live| < s.maxSubs {
      assert |s.subs| !in s.live;
    }
    if a.Unsub? && a.id in s.live {
      assert |s.live - {a.id}| == |s.live| - 1;
    }
  }

  /** The subscribers a publisher has yet to serve stay subscribed: it holds the read lock. */
  lemma {:induction false} RestStep(s: State, a: Step, p: nat, id: nat)
    requires LiveOk(s) && Enabled(s, a) && p < |Do(s, a).publishers|
    requires Do(s, a).publishers[p].Sending? && id in Do(s, a).publishers[p].rest
    ensures id in Do(s, a).live
  {}

  lemma {:induction false} LiveStep(s: State, a: Step)
    requires Inv(s) && Enabled(s, a)
    ensures LiveOk(Do(s, a))
  {
    var t := Do(s, a);
    forall id | id in t.live ensures id < |t.subs| && !t.subs[id].chanClosed && !t.closed { LiveIdStep(s, a, id); }
    forall p, id | 0 <= p < |t.publishers| && t.publishers[p].Sending? && id in t.publishers[p].rest
      ensures id in t.live
    {
      RestStep(s, a, p, id);
    }
    LiveCountStep(s, a);
  }

  lemma {:induction false} Queued(sub: Sub, e: Event)
    requires SubOk(sub)
    ensures SubOk(sub.(offered := sub.offered + [e], queue := sub.queue + [e]))
  {
    SubsequenceGrows(sub.taken + sub.queue, sub.offered, e);
    assert sub.taken + (sub.queue + [e]) == (sub.taken + sub.queue) + [e];
  }

  lemma {:induction false} Dropped(sub: Sub, e: Event)
    requires SubOk(sub)
    ensures SubOk(sub.(offered := sub.offered + [e], dropped := sub.dropped + 1, drops := sub.drops + 1))
  {
    SubsequenceGrows(sub.taken + sub.queue, sub.offered, e);
  }

  lemma {:induction false} HandedOff(sub: Sub, e: Event)
    requires SubOk(sub) && sub.queue == []
    ensures SubOk(sub.(offered := sub.offered + [e], taken := sub.taken + [e]))
  {
    SubsequenceGrows(sub.taken + sub.queue, sub.offered, e);
    assert (sub.taken + [e]) + sub.queue == (sub.taken + sub.queue) + [e];
  }

  lemma {:induction false} Taken(sub: Sub)
    requires SubOk(sub) && sub.queue != []
    ensures SubOk(sub.(queue := sub.queue[1..], taken := sub.taken + [sub.queue[0]]))
  {
    assert (sub.taken + [sub.queue[0]]) + sub.queue[1..] == sub.taken + sub.queue;
  }

  /** Every step leaves every subscriber's account in order, the one it touches included. */
  lemma {:induction false} SubStep(s: State, a: Step, id: nat)
    requires Inv(s) && Enabled(s, a) && id < |Do(s, a).subs|
    ensures SubOk(Do(s, a).subs[id])
  {
    if id < |s.subs| {
      var sub := s.subs[id];
      assert SubOk(sub);
      match a
      case Offer(p, k) => if k == id { Queued(sub, s.publishers[p].e); Dropped(sub, s.publishers[p].e); }
      case HandOff(p, k) => if k == id { HandedOff(sub, s.publishers[p].e); }
      case Take(k) => if k == id { Taken(sub); }
      case _ =>
    }
  }

  lemma {:induction false} SubsStep(s: State, a: Step)
    requires Inv(s) && Enabled(s, a)
    ensures forall id :: 0 <= id < |Do(s, a).subs| ==> SubOk(Do(s, a).subs[id])
  {
    forall id | 0 <= id < |Do(s, a).subs|
      ensures SubOk(Do(s, a).subs[id])
    {
      SubStep(s, a, id);
    }
  }

  /** A step of publisher `p` that touches no subscriber. */
  lemma {:induction false} DropsPublisherStep(s: State, a: Step)
    requires Inv(s) && Enabled(s, a) && (a.Check? || a.StartSend? || a.CountDrop? || a.EndSend?)
    ensures Drops(Do(s, a).subs) == Do(s, a).droppedTotal + Owed(Do(s, a).publishers)
  {
    OwedUpdate(s.publishers, a.p, Do(s, a).publishers[a.p]);
  }

  lemma {:induction false} DropsSendStep(s: State, a: Step)
    requires Inv(s) && Enabled(s, a) && (a.Offer? || a.HandOff?)
    ensures Drops(Do(s, a).subs) == Do(s, a).droppedTotal + Owed(Do(s, a).publishers)
  {
    OwedUpdate(s.publishers, a.p, Do(s, a).publishers[a.p]);
    DropsUpdate(s.subs, a.id, Do(s, a).subs[a.id]);
  }

  lemma {:induction false} DropsBusStep(s: State, a: Step)
    requires Inv(s) && Enabled(s, a) && (a.CloseBus? || a.Subscribe? || a.Unsub?)
    ensures Drops(Do(s, a).subs) == Do(s, a).droppedTotal + Owed(Do(s, a).publishers)
  {
    if a.CloseBus? {
      DropsSame(s.subs, Do(s, a).subs);
    } else if a.Subscribe? {
      assert (s.subs + [FRESH])[..|s.subs|] == s.subs;
    }
  }

  lemma {:induction false} DropsStep(s: State, a: Step)
    requires Inv(s) && Enabled(s, a)
    ensures Drops(Do(s, a).subs) == Do(s, a).droppedTotal + Owed(Do(s, a).publishers)
  {
    if a.Offer? || a.HandOff? {
      DropsSendStep(s, a);
    } else if a.Check? || a.StartSend? || a.CountDrop? || a.EndSend? {
      DropsPublisherStep(s, a);
    } else if a.Take? || a.DrainDropped? {
      DropsUpdate(s.subs, a.id, Do(s, a).subs[a.id]);
    } else {
      DropsBusStep(s, a);
    }
  }

  // ---------- every interleaving ----------

  ghost predicate Init(s: State) {
    && s.subs == [] && s.live == {} && !s.closed && s.droppedTotal == 0 && s.log == []
    && (forall p :: 0 <= p < |s.publishers| ==> s.publishers[p].Idle?)
  }

  ghost predicate Run(s: State, steps: seq<Step>)
    decreases |steps|
  {
    steps == [] || (Enabled(s, steps[0]) && Run(Do(s, steps[0]), steps[1..]))
  }

  ghost function End(s: State, steps: seq<Step>): State
    requires Run(s, steps)
    decreases |steps|
  {
    if steps == [] then s else End(Do(s, steps[0]), steps[1..])
  }

  lemma {:induction false} NobodyOwes(pubs: seq<Publisher>)
    requires forall p :: 0 <= p < |pubs| ==> Owes(pubs[p]) == 0
    ensures Owed(pubs) == 0
  {
    if pubs != [] { NobodyOwes(pubs[..|pubs| - 1]); }
  }

  lemma {:induction false} InvStep(s: State, a: Step)
    requires Inv(s) && Enabled(s, a)
    ensures Inv(Do(s, a))
  {
    LiveStep(s, a);
    SubsStep(s, a);
    DropsStep(s, a);
  }

  lemma {:induction false} InvRun(s: State, steps: seq<Step>)
    requires Inv(s) && Run(s, steps)
    ensures Inv(End(s, steps))
    decreases |steps|
  {
    if steps != [] {
      InvStep(s, steps[0]);
      InvRun(Do(s, steps[0]), steps[1..]);
    }
  }

  lemma {:induction false} InitInv(s: State)
    requires Init(s)
    ensures Inv(s)
  {
    NobodyOwes(s.publishers);
  }

  /** Nobody sends on a closed channel, nobody closes one twice, and the subscribers never
      exceed the maximum. */
  lemma {:induction false} NoSendOnClosed(init: State, steps: seq<Step>)
    requires Init(init) && Run(init, steps)
    ensures var s := End(init, steps);
            && (forall p: nat, id: nat :: Sends(s, p, id) ==> !s.subs[id].chanClosed)
            && (forall id :: id in s.live ==> id < |s.subs| && !s.subs[id].chanClosed)
            && (s.live != {} ==> |s.live| <= s.maxSubs)
  {
    InitInv(init);
    InvRun(init, steps);
  }

  /** Each subscriber sees a subsequence of the sends offered to it, and every send is taken,
      queued or counted as dropped. */
  lemma {:induction false} SendsAccounted(init: State, steps: seq<Step>, id: nat)
    requires Init(init) && Run(init, steps) && id < |End(init, steps).subs|
    ensures var sub := End(init, steps).subs[id];
            && IsSubsequence(sub.taken + sub.queue, sub.offered)
            && |sub.offered| == |sub.taken| + |sub.queue| + sub.dropped
            && sub.dropped == sub.drops + sub.drained
  {
    InitInv(init);
    InvRun(init, steps);
    assert SubOk(End(init, steps).subs[id]);
  }

  /** The bus's drop counter is the sum of all subscribers' drops, past and present, short only
      of drops a publisher is just counting. */
  lemma {:induction false} DropsAddUp(init: State, steps: seq<Step>)
    requires Init(init) && Run(init, steps)
    ensures var s := End(init, steps);
            && Drops(s.subs) == s.droppedTotal + Owed(s.publishers)
            && (NoReaders(s) ==> Drops(s.subs) == s.droppedTotal)
  {
    InitInv(init);
    InvRun(init, steps);
    if NoReaders(End(init, steps)) { NobodyOwes(End(init, steps).publishers); }
  }

  // ---------- queues and drops ----------

  ghost predicate QueuesFit(s: State) {
    forall id :: 0 <= id < |s.subs| ==> |s.subs[id].queue| <= s.bufSize
  }

  lemma {:induction false} QueuesFitStep(s: State, a: Step)
    requires QueuesFit(s) && Enabled(s, a)
    ensures QueuesFit(Do(s, a)) && Do(s, a).bufSize == s.bufSize && |s.subs| <= |Do(s, a).subs|
  {}

  lemma {:induction false} QueuesFitRun(s: State, steps: seq<Step>)
    requires QueuesFit(s) && Run(s, steps)
    ensures QueuesFit(End(s, steps)) && End(s, steps).bufSize == s.bufSize
    decreases |steps|
  {
    if steps != [] {
      QueuesFitStep(s, steps[0]);
      QueuesFitRun(Do(s, steps[0]), steps[1..]);
    }
  }

  /** In every interleaving no channel holds more than its capacity, and a subscriber's drop
      count rises, by one, exactly at an offer that finds its channel full. */
  lemma {:induction false} DropsOnlyWhenFull(init: State, steps: seq<Step>, a: Step, id: nat)
    requires Init(init) && Run(init, steps) && Enabled(End(init, steps), a) && id < |End(init, steps).subs|
    ensures var s, t := End(init, steps), Do(End(init, steps), a);
            && id < |t.subs| && |t.subs[id].queue| <= init.bufSize
            && t.subs[id].dropped == s.subs[id].dropped
                 + (if a.Offer? && a.id == id && |s.subs[id].queue| == init.bufSize then 1 else 0)
  {
    QueuesFitRun(init, steps);
    QueuesFitStep(End(init, steps), a);
    DropsStepwise(End(init, steps), a, id);
  }

  lemma {:induction false} DropsStepwise(s: State, a: Step, id: nat)
    requires QueuesFit(s) && Enabled(s, a) && id < |s.subs|
    ensures id < |Do(s, a).subs|
    ensures Do(s, a).subs[id].dropped == s.subs[id].dropped
              + (if a.Offer? && a.id == id && |s.subs[id].queue| == s.bufSize then 1 else 0)
  {}

  /** In every interleaving, what draining has reported is, right after it, all drops so far,
      and nothing is reported twice. */
  lemma {:induction false} DrainReportsAll(init: State, steps: seq<Step>, id: nat)
    requires Init(init) && Run(init, steps) && id < |End(init, steps).subs|
    ensures var s, t := End(init, steps).subs[id], Do(End(init, steps), DrainDropped(id)).subs[id];
            && t.drained == t.dropped == s.dropped && t.drained == s.drained + s.drops
            && t.(drops := s.drops, drained := s.drained) == s
  {
    SendsAccounted(init, steps, id);
  }

  /** The consumer keeps up: no more events are ever offered than taken and room for. */
  ghost predicate KeepsUp(s: State, steps: seq<Step>, id: nat)
    requires Run(s, steps)
    decreases |steps|
  {
    && (id < |s.subs| ==> |s.subs[id].offered| <= |s.subs[id].taken| + s.bufSize)
    && (steps == [] || KeepsUp(Do(s, steps[0]), steps[1..], id))
  }

  ghost predicate Undropped(s: State, id: nat) {
    id < |s.subs| ==> s.subs[id].dropped == 0
  }

  lemma {:induction false} UndroppedStep(s: State, a: Step, id: nat)
    requires Inv(s) && QueuesFit(s) && Enabled(s, a) && Undropped(s, id)
    requires id < |Do(s, a).subs| ==> |Do(s, a).subs[id].offered| <= |Do(s, a).subs[id].taken| + s.bufSize
    ensures Undropped(Do(s, a), id)
  {
    if id < |s.subs| {
      assert SubOk(s.subs[id]);
      DropsStepwise(s, a, id);
    }
  }

  lemma {:induction false} UndroppedRun(s: State, steps: seq<Step>, id: nat)
    requires Inv(s) && QueuesFit(s) && Run(s, steps) && KeepsUp(s, steps, id) && Undropped(s, id)
    ensures Undropped(End(s, steps), id)
    decreases |steps|
  {
    if steps != [] {
      var t := Do(s, steps[0]);
      QueuesFitStep(s, steps[0]);
      UndroppedStep(s, steps[0], id);
      InvStep(s, steps[0]);
      UndroppedRun(t, steps[1..], id);
    }
  }

  lemma {:induction false} SubsequenceShorter(a: seq<Event>, b: seq<Event>)
    requires IsSubsequence(a, b)
    ensures |a| <= |b| && (|a| == |b| ==> a == b)
    decreases |b|
  {
    if a != [] {
      var x, y := a[..|a| - 1], b[..|b| - 1];
      if a[|a| - 1] == b[|b| - 1] && IsSubsequence(x, y) {
        SubsequenceShorter(x, y);
        assert a == x + [a[|a| - 1]] && b == y + [b[|b| - 1]];
      } else {
        SubsequenceShorter(a, y);
      }
    }
  }

  /** A subscriber that keeps up misses nothing: what it took and what waits for it is all
      that was offered, in order. */
  lemma {:induction false} NothingMissed(init: State, steps: seq<Step>, id: nat)
    requires Init(init) && Run(init, steps) && KeepsUp(init, steps, id) && id < |End(init, steps).subs|
    ensures var sub := End(init, steps).subs[id]; sub.dropped == 0 && sub.taken + sub.queue == sub.offered
  {
    InitInv(init);
    InvRun(init, steps);
    UndroppedRun(init, steps, id);
    var sub := End(init, steps).subs[id];
    assert SubOk(sub);
    SubsequenceShorter(sub.taken + sub.queue, sub.offered);
  }

  // ---------- every live subscriber is served once ----------

  /** How often publisher `p` sent to subscriber `id` from position `from` of the log on. */
  ghost function Count(log: seq<Send>, from: nat, p: nat, id: nat): nat
    requires from <= |log|
  {
    if |log| == from then 0
    else Count(log[..|log| - 1], from, p, id) + (if log[|log| - 1].p == p && log[|log| - 1].id == id then 1 else 0)
  }

  lemma {:induction false} CountSnoc(log: seq<Send>, send: Send, from: nat, p: nat, id: nat)
    requires from <= |log|
    ensures Count(log + [send], from, p, id) == Count(log, from, p, id) + (if send.p == p && send.id == id then 1 else 0)
  {
    assert (log + [send])[..|log|] == log;
  }

  /** Where publisher `p` stands in the round it began with these subscribers live. */
  ghost predicate InRound(s: State, p: nat, e: Event, live: set<nat>, from: nat) {
    && p < |s.publishers| && s.publishers[p].Sending? && s.publishers[p].e == e && s.publishers[p].rest <= live
    && from <= |s.log|
    && (forall id: nat :: Count(s.log, from, p, id) == if id in live && id !in s.publishers[p].rest then 1 else 0)
    && (forall i :: from <= i < |s.log| && s.log[i].p == p ==> s.log[i].e == e)
  }

  lemma {:induction false} LogStep(s: State, a: Step)
    requires Enabled(s, a)
    ensures Do(s, a).log == if a.Offer? || a.HandOff? then s.log + [Send(a.p, a.id, s.publishers[a.p].e)] else s.log
  {}

  lemma {:induction false} PublisherStep(s: State, a: Step, p: nat)
    requires Enabled(s, a) && p < |s.publishers| && s.publishers[p].Sending? && a != EndSend(p)
    ensures var pub, pub' := s.publishers[p], Do(s, a).publishers[p];
            && p < |Do(s, a).publishers| && pub'.Sending? && pub'.e == pub.e
            && pub'.rest == if (a.Offer? || a.HandOff?) && a.p == p then pub.rest - {a.id} else pub.rest
  {}

  lemma {:induction false} RoundStep(s: State, a: Step, p: nat, e: Event, live: set<nat>, from: nat)
    requires InRound(s, p, e, live, from) && Enabled(s, a) && a != EndSend(p)
    ensures InRound(Do(s, a), p, e, live, from)
  {
    LogStep(s, a);
    PublisherStep(s, a, p);
    if a.Offer? || a.HandOff? {
      forall id: nat
        ensures Count(Do(s, a).log, from, p, id) ==
                Count(s.log, from, p, id) + (if a.p == p && a.id == id then 1 else 0)
      {
        CountSnoc(s.log, Send(a.p, a.id, s.publishers[a.p].e), from, p, id);
      }
    }
  }

  lemma {:induction false} RoundRun(s: State, steps: seq<Step>, p: nat, e: Event, live: set<nat>, from: nat)
    requires InRound(s, p, e, live, from) && Run(s, steps) && EndSend(p) !in steps
    ensures InRound(End(s, steps), p, e, live, from)
    decreases |steps|
  {
    if steps != [] {
      RoundStep(s, steps[0], p, e, live, from);
      RoundRun(Do(s, steps[0]), steps[1..], p, e, live, from);
    }
  }

  lemma {:induction false} CheckedStep(s: State, a: Step, p: nat)
    requires Enabled(s, a) && p < |s.publishers| && s.publishers[p].Checked? && a != StartSend(p)
    ensures p < |Do(s, a).publishers| && Do(s, a).publishers[p] == s.publishers[p]
  {}

  lemma {:induction false} CheckedRun(s: State, steps: seq<Step>, p: nat)
    requires Run(s, steps) && p < |s.publishers| && s.publishers[p].Checked? && StartSend(p) !in steps
    ensures p < |End(s, steps).publishers| && End(s, steps).publishers[p] == s.publishers[p]
    decreases |steps|
  {
    if steps != [] {
      CheckedStep(s, steps[0], p);
      CheckedRun(Do(s, steps[0]), steps[1..], p);
    }
  }

  /** Publishing on a closed bus changes nothing. On an open one, in every interleaving, the
      publisher can enter its send section whenever it is scheduled. */
  lemma {:induction false} PublishStarts(init: State, before: seq<Step>, p: nat, e: Event, between: seq<Step>)
    requires Init(init) && Run(init, before) && Enabled(End(init, before), Check(p, e))
    requires Run(Do(End(init, before), Check(p, e)), between) && StartSend(p) !in between
    ensures var s, t := End(init, before), End(Do(End(init, before), Check(p, e)), between);
            if s.closed then Do(s, Check(p, e)) == s
            else Enabled(t, StartSend(p)) && t.publishers[p] == Checked(e)
  {
    var s := End(init, before);
    if !s.closed { CheckedRun(Do(s, Check(p, e)), between, p); }
  }

  /** And between the start and the end of that section it offers the event it was given,
      exactly once to each subscriber that was live at the start, and to nobody else. */
  lemma {:induction false} EveryoneOnce(
    init: State, before: seq<Step>, p: nat, e: Event, between: seq<Step>, during: seq<Step>)
    requires Init(init) && Run(init, before) && Enabled(End(init, before), Check(p, e)) && !End(init, before).closed
    requires Run(Do(End(init, before), Check(p, e)), between) && StartSend(p) !in between
    requires var s := End(Do(End(init, before), Check(p, e)), between);
             Enabled(s, StartSend(p)) && Run(Do(s, StartSend(p)), during) && EndSend(p) !in during
             && Enabled(End(Do(s, StartSend(p)), during), EndSend(p))
    ensures var s := End(Do(End(init, before), Check(p, e)), between);
            var t := End(Do(s, StartSend(p)), during);
            && |s.log| <= |t.log|
            && (forall id: nat :: Count(t.log, |s.log|, p, id) == if id in s.live then 1 else 0)
            && (forall i :: |s.log| <= i < |t.log| && t.log[i].p == p ==> t.log[i].e == e)
  {
    PublishStarts(init, before, p, e, between);
    var s := End(Do(End(init, before), Check(p, e)), between);
    RoundRun(Do(s, StartSend(p)), during, p, e, s.live, |s.log|);
  }

  /** What a subscriber was offered is what was sent to it, in order. */
  ghost function SentTo(log: seq<Send>, id: nat): seq<Event> {
    if log == [] then []
    else SentTo(log[..|log| - 1], id) + (if log[|log| - 1].id == id then [log[|log| - 1].e] else [])
  }

  ghost predicate Faithful(s: State) {
    && (forall id :: 0 <= id < |s.subs| ==> s.subs[id].offered == SentTo(s.log, id))
    && (forall i :: 0 <= i < |s.log| ==> s.log[i].id < |s.subs|)
  }

  lemma {:induction false} SentToNobody(log: seq<Send>, id: nat)
    requires forall i :: 0 <= i < |log| ==> log[i].id != id
    ensures SentTo(log, id) == []
  {
    if log != [] { SentToNobody(log[..|log| - 1], id); }
  }

  lemma {:induction false} FaithfulSub(s: State, a: Step, id: nat)
    requires Faithful(s) && Enabled(s, a) && id < |Do(s, a).subs|
    ensures Do(s, a).subs[id].offered == SentTo(Do(s, a).log, id)
  {
    LogStep(s, a);
    if a.Offer? || a.HandOff? {
      assert (s.log + [Send(a.p, a.id, s.publishers[a.p].e)])[..|s.log|] == s.log;
    }
    if id == |s.subs| { SentToNobody(s.log, id); }
  }

  lemma {:induction false} FaithfulStep(s: State, a: Step)
    requires Faithful(s) && Enabled(s, a)
    ensures Faithful(Do(s, a))
  {
    forall id | 0 <= id < |Do(s, a).subs| ensures Do(s, a).subs[id].offered == SentTo(Do(s, a).log, id) {
      FaithfulSub(s, a, id);
    }
    LogStep(s, a);
  }

  lemma {:induction false} FaithfulRun(s: State, steps: seq<Step>)
    requires Faithful(s) && Run(s, steps)
    ensures Faithful(End(s, steps))
    decreases |steps|
  {
    if steps != [] {
      FaithfulStep(s, steps[0]);
      FaithfulRun(Do(s, steps[0]), steps[1..]);
    }
  }

  /** In every interleaving a subscriber was offered exactly what was sent to it, in order. */
  lemma {:induction false} OfferedIsSent(init: State, steps: seq<Step>, id: nat)
    requires Init(init) && Run(init, steps) && id < |End(init, steps).subs|
    ensures End(init, steps).subs[id].offered == SentTo(End(init, steps).log, id)
  {
    FaithfulRun(init, steps);
  }

  /** Who is subscribed and whose channel is closed: a subscription is granted exactly when
      the bus is open and below its maximum, lasts until it is given up or the bus closes,
      and closing closes exactly the channels still subscribed. */
  lemma {:induction false} Subscriptions(s: State, a: Step, id: nat)
    requires Enabled(s, a) && LiveOk(s)
    ensures var t := Do(s, a);
            var granted := a.Subscribe? && !s.closed && |s.live| < s.maxSubs;
            && |t.subs| == |s.subs| + (if granted then 1 else 0)
            && (id in t.live <==> (id in s.live && a != Unsub(id) && !a.CloseBus?) || (granted && id == |s.subs|))
            && (id < |s.subs| ==> (t.subs[id].chanClosed <==> s.subs[id].chanClosed || (a.CloseBus? && id in s.live)))
            && (granted ==> t.subs[|s.subs|] == FRESH)
  {}
}
