/** The idle sweeper: a min-heap of deadlines with back-indices and a map from sessions to
    their entries. The heap operations are those of Go's container/heap. */
module IdleSweeper {
  type SessionId = nat

  class Entry {
    const sess: SessionId
    var deadline: int
    var index: int

    constructor (sess: SessionId, deadline: int)
      ensures this.sess == sess && this.deadline == deadline
    {
      this.sess, this.deadline, index := sess, deadline, 0;
    }
  }

  // ---------- heaps of keys ----------

  function Parent(k: int): int { (k - 1) / 2 }

  ghost predicate Above(keys: seq<int>, k: int) {
    0 < k < |keys| ==> keys[Parent(k)] <= keys[k]
  }

  /** The first `n` slots form a min-heap. */
  ghost predicate Ordered(keys: seq<int>, n: int) {
    forall k :: 0 < k < n ==> Above(keys, k)
  }

  /** A min-heap but for slot `i`, whose neighbours are in order with each other. */
  ghost predicate Hole(keys: seq<int>, i: int, n: int)
    requires 0 <= i < n <= |keys|
  {
    && (forall k :: 0 < k < n && k != i && Parent(k) != i ==> Above(keys, k))
    && (forall k :: 0 < k < n && Parent(k) == i && 0 < i ==> keys[Parent(i)] <= keys[k])
  }

  /** Slot `i` is in order with its children. */
  ghost predicate Settled(keys: seq<int>, i: int, n: int) {
    forall k :: 0 < k < n && Parent(k) == i ==> Above(keys, k)
  }

  ghost function Swapped(keys: seq<int>, i: int, j: int): seq<int>
    requires 0 <= i < |keys| && 0 <= j < |keys|
  {
    keys[i := keys[j]][j := keys[i]]
  }

  lemma {:induction false} SwapUp(keys: seq<int>, j: int, n: int)
    requires 0 < j < n <= |keys| && Hole(keys, j, n) && Settled(keys, j, n) && keys[j] < keys[Parent(j)]
    ensures var i, keys' := Parent(j), Swapped(keys, Parent(j), j);
            Hole(keys', i, n) && Settled(keys', i, n)
  {
    var i, keys' := Parent(j), Swapped(keys, Parent(j), j);
    forall k | 0 < k < n && k != i ensures Above(keys', k) {
      assert k != j ==> Above(keys, k);
      assert Parent(k) != i ==> Above(keys, k) || k == j;
    }
    if 0 < i { assert Above(keys, i); }
  }

  lemma {:induction false} SwapDown(keys: seq<int>, i: int, j: int, n: int)
    requires 0 <= i < n <= |keys| && Hole(keys, i, n) && 0 < j < n && Parent(j) == i && keys[j] < keys[i]
    requires forall k :: 0 < k < n && Parent(k) == i ==> keys[j] <= keys[k]
    ensures var keys' := Swapped(keys, i, j);
            Hole(keys', j, n) && Above(keys', j) && Above(keys', i)
  {
    var keys' := Swapped(keys, i, j);
    forall k | 0 < k < n && k != j && Parent(k) != j ensures Above(keys', k) {
      assert k != i && Parent(k) != i ==> Above(keys, k);
    }
    forall k | 0 < k < n && Parent(k) == j ensures keys'[i] <= keys'[k] {
      assert Above(keys, k);
    }
  }

  /** The children of `i` are its next two slots; `j` is a least one. */
  lemma {:induction false} LeastChild(keys: seq<int>, i: int, j: int, n: int)
    requires 0 <= i && 2 * i + 1 < n <= |keys|
    requires j == if 2 * i + 2 < n && keys[2 * i + 2] < keys[2 * i + 1] then 2 * i + 2 else 2 * i + 1
    ensures 0 < j < n && Parent(j) == i
    ensures forall k :: 0 < k < n && Parent(k) == i ==> keys[j] <= keys[k]
    ensures keys[i] <= keys[j] ==> Settled(keys, i, n)
  {
    forall k | 0 < k < n && Parent(k) == i ensures keys[j] <= keys[k] {
      assert k == 2 * i + 1 || k == 2 * i + 2;
    }
  }

  lemma {:induction false} NoChild(keys: seq<int>, i: int, n: int)
    requires 0 <= i && n <= 2 * i + 1
    ensures Settled(keys, i, n)
  {}

  lemma {:induction false} HoleFilled(keys: seq<int>, i: int, n: int)
    requires 0 <= i < n <= |keys| && Hole(keys, i, n) && Settled(keys, i, n) && Above(keys, i)
    ensures Ordered(keys, n)
  {}

  lemma {:induction false} HoleAfterRemoval(keys: seq<int>, i: int)
    requires 0 <= i < |keys| - 1 && Ordered(keys, |keys|)
    ensures Hole(Swapped(keys, i, |keys| - 1), i, |keys| - 1)
  {
    var n := |keys| - 1;
    var keys' := Swapped(keys, i, n);
    forall k | 0 < k < n && k != i && Parent(k) != i ensures Above(keys', k) {
      assert Above(keys, k);
    }
    forall k | 0 < k < n && Parent(k) == i && 0 < i ensures keys'[Parent(i)] <= keys'[k] {
      assert Above(keys, k) && Above(keys, i);
    }
  }

  lemma {:induction false} OrderedPrefix(keys: seq<int>, n: nat)
    requires n <= |keys| && Ordered(keys, n)
    ensures Ordered(keys[..n], n)
  {
    forall k | 0 < k < n ensures Above(keys[..n], k) { assert Above(keys, k); }
  }

  lemma {:induction false} RootIsLeast(keys: seq<int>, k: int)
    requires Ordered(keys, |keys|) && 0 <= k < |keys|
    ensures keys[0] <= keys[k]
    decreases k
  {
    if k > 0 {
      assert Above(keys, k);
      RootIsLeast(keys, Parent(k));
    }
  }

  class Sweeper {
    const timeout: int
    var heap: seq<Entry>
    var entries: map<SessionId, Entry>
    ghost var since: map<SessionId, int>      // when each session was tracked
    ghost var seen: SessionId -> int          // the activity seen by the latest sweep

    constructor (timeout: int, ghost seen: SessionId -> int)
      ensures WellFormed() && Bijective() && heap == [] && entries == map[] && this.timeout == timeout
      ensures Log() == Book(map[], map[], seen)
    {
      this.timeout, heap, entries, since, this.seen := timeout, [], map[], map[], seen;
    }

    // ---------- invariants ----------

    /** Every entry's index is its slot; in particular no entry occurs twice. */
    ghost predicate Indexed()
      reads this`heap, heap
    {
      forall i :: 0 <= i < |heap| ==> heap[i].index == i
    }

    ghost function Keys(): (keys: seq<int>)
      reads this`heap, heap
      ensures |keys| == |heap|
    {
      var h := heap;
      seq(|h|, k requires 0 <= k < |h| reads h => h[k].deadline)
    }

    ghost predicate Mapped()
      reads this`heap, this`entries
    {
      forall s :: s in entries ==> entries[s].sess == s && entries[s] in heap
    }

    ghost predicate WellFormed()
      reads this`heap, this`entries, heap
    {
      Indexed() && Ordered(Keys(), |heap|) && Mapped()
    }

    /** With WellFormed: sessions and slots correspond one to one. */
    ghost predicate Bijective()
      reads this`heap, this`entries
    {
      forall e :: e in heap ==> e.sess in entries && entries[e.sess] == e
    }

    ghost function Items(): set<Entry>
      reads this`heap
    {
      set e | e in heap
    }

    ghost function Deadlines(): map<SessionId, int>
      reads this`entries, entries.Values
    {
      map s | s in entries :: entries[s].deadline
    }

    /** The sweeper's history as a book of deadlines. */
    ghost function Log(): Book
      reads this, entries.Values
    {
      Book(Deadlines(), since, seen)
    }

    // ---------- container/heap ----------

    method Swap(i: int, j: int)
      requires Indexed() && 0 <= i < |heap| && 0 <= j < |heap|
      modifies this`heap, Items()`index
      ensures heap == old(heap)[i := old(heap)[j]][j := old(heap)[i]]
      ensures Indexed() && Items() == old(Items())
      ensures Keys() == Swapped(old(Keys()), i, j)
    {
      var a, b := heap[i], heap[j];
      heap := heap[i := b][j := a];
      b.index := i;
      a.index := j;
      forall e | e in old(heap) ensures e in heap {
        var k :| 0 <= k < |old(heap)| && old(heap)[k] == e;
        assert heap[if k == i then j else if k == j then i else k] == e;
      }
    }

    method Up(start: int, ghost n: int)
      requires Indexed() && 0 <= start < n <= |heap| && Hole(Keys(), start, n) && Settled(Keys(), start, n)
      modifies this`heap, Items()`index
      ensures Indexed() && Items() == old(Items()) && |heap| == old(|heap|)
      ensures Ordered(Keys(), n)
      ensures forall k :: n <= k < |heap| ==> heap[k] == old(heap[k])
    {
      var j := start;
      while true
        invariant 0 <= j < n && |heap| == old(|heap|)
        invariant Indexed() && Items() == old(Items())
        invariant Hole(Keys(), j, n) && Settled(Keys(), j, n)
        invariant forall k :: n <= k < |heap| ==> heap[k] == old(heap[k])
        decreases j
      {
        var i := UpStep(j, n);
        if i == j { break; }
        j := i;
      }
      HoleFilled(Keys(), j, n);
    }

    /** One round of `up`: swap with the parent if that is larger. */
    method UpStep(j: int, ghost n: int) returns (i: int)
      requires Indexed() && 0 <= j < n <= |heap| && Hole(Keys(), j, n) && Settled(Keys(), j, n)
      modifies this`heap, Items()`index
      ensures Indexed() && Items() == old(Items()) && |heap| == old(|heap|) && 0 <= i <= j
      ensures i == j ==> heap == old(heap) && Above(Keys(), j)
      ensures i != j ==> Hole(Keys(), i, n) && Settled(Keys(), i, n)
      ensures forall k :: n <= k < |heap| ==> heap[k] == old(heap[k])
    {
      if j == 0 { return j; }
      i := Parent(j);
      if heap[i].deadline <= heap[j].deadline { return j; }
      SwapUp(Keys(), j, n);
      Swap(i, j);
    }

    /** One round of `down`: swap with the least child if that is smaller. */
    method DownStep(i: int, n: int) returns (j: int)
      requires Indexed() && 0 <= i < n <= |heap| && Hole(Keys(), i, n)
      modifies this`heap, Items()`index
      ensures Indexed() && Items() == old(Items()) && |heap| == old(|heap|) && i <= j < n
      ensures j == i ==> heap == old(heap) && Settled(Keys(), i, n)
      ensures j != i ==> Hole(Keys(), j, n) && Above(Keys(), j)
      ensures forall k :: n <= k < |heap| ==> heap[k] == old(heap[k])
    {
      if 2 * i + 1 >= n {
        NoChild(Keys(), i, n);
        return i;
      }
      j := ChooseChild(i, n);
      if heap[i].deadline <= heap[j].deadline { return i; }
      SwapDown(Keys(), i, j, n);
      Swap(i, j);
    }

    method ChooseChild(i: int, n: int) returns (j: int)
      requires 0 <= i && 2 * i + 1 < n <= |heap|
      ensures i < j < n && Parent(j) == i
      ensures forall k :: 0 < k < n && Parent(k) == i ==> Keys()[j] <= Keys()[k]
      ensures Keys()[i] <= Keys()[j] ==> Settled(Keys(), i, n)
    {
      j := 2 * i + 1;
      if j + 1 < n && heap[j + 1].deadline < heap[j].deadline { j := j + 1; }
      LeastChild(Keys(), i, j, n);
    }

    method Down(start: int, n: int) returns (moved: bool)
      requires Indexed() && 0 <= start < n <= |heap| && Hole(Keys(), start, n)
      modifies this`heap, Items()`index
      ensures Indexed() && Items() == old(Items()) && |heap| == old(|heap|)
      ensures moved ==> Ordered(Keys(), n)
      ensures !moved ==> heap == old(heap) && Settled(Keys(), start, n)
      ensures forall k :: n <= k < |heap| ==> heap[k] == old(heap[k])
    {
      var i := start;
      while true
        invariant start <= i < n && |heap| == old(|heap|)
        invariant Indexed() && Items() == old(Items())
        invariant Hole(Keys(), i, n)
        invariant i == start ==> heap == old(heap)
        invariant i != start ==> Above(Keys(), i)
        invariant forall k :: n <= k < |heap| ==> heap[k] == old(heap[k])
        decreases n - i
      {
        var j := DownStep(i, n);
        if j == i { break; }
        i := j;
      }
      moved := i > start;
      if moved { HoleFilled(Keys(), i, n); }
    }

    method HeapPush(entry: Entry)
      requires Indexed() && Ordered(Keys(), |heap|) && entry !in heap
      modifies this`heap, Items()`index, entry`index
      ensures Indexed() && Ordered(Keys(), |heap|) && Items() == old(Items()) + {entry}
    {
      ghost var keys := Keys();
      entry.index := |heap|;
      heap := heap + [entry];
      assert forall k :: 0 <= k < |keys| ==> Keys()[k] == keys[k];
      forall k | 0 < k < |keys| ensures Above(Keys(), k) { assert Above(keys, k); }
      Up(|heap| - 1, |heap|);
    }

    /** `Pop` of the slice: drops the last slot. */
    method DropLast()
      requires Indexed() && heap != [] && Ordered(Keys(), |heap| - 1)
      modifies this`heap, Items()`index
      ensures heap == old(heap[..|heap| - 1]) && Indexed() && Ordered(Keys(), |heap|)
      ensures Items() == old(Items()) - {old(heap[|heap| - 1])}
    {
      ghost var keys := Keys();
      var n := |heap| - 1;
      heap[n].index := -1;
      heap := heap[..n];
      assert Keys() == keys[..n];
      OrderedPrefix(keys, n);
    }

    method HeapPop() returns (entry: Entry)
      requires Indexed() && heap != [] && Ordered(Keys(), |heap|)
      modifies this`heap, Items()`index
      ensures entry == old(heap[0])
      ensures Indexed() && Ordered(Keys(), |heap|) && Items() == old(Items()) - {entry}
    {
      var n := |heap| - 1;
      if n > 0 {
        HoleAfterRemoval(Keys(), 0);
        Swap(0, n);
        var moved := Down(0, n);
        if !moved { HoleFilled(Keys(), 0, n); }
      }
      entry := heap[n];
      DropLast();
    }

    method HeapRemove(i: int) returns (entry: Entry)
      requires Indexed() && 0 <= i < |heap| && Ordered(Keys(), |heap|)
      modifies this`heap, Items()`index
      ensures entry == old(heap[i])
      ensures Indexed() && Ordered(Keys(), |heap|) && Items() == old(Items()) - {entry}
    {
      var n := |heap| - 1;
      if n != i {
        HoleAfterRemoval(Keys(), i);
        Swap(i, n);
        var moved := Down(i, n);
        if !moved { Up(i, n); }
      }
      entry := heap[n];
      DropLast();
    }

    method HeapFix(i: int)
      requires Indexed() && 0 <= i < |heap| && Hole(Keys(), i, |heap|)
      modifies this`heap, Items()`index
      ensures Indexed() && Ordered(Keys(), |heap|) && Items() == old(Items()) && |heap| == old(|heap|)
    {
      var moved := Down(i, |heap|);
      if !moved { Up(i, |heap|); }
    }

    // ---------- the sweeper ----------

    method Track(sess: SessionId, now: int) returns (tracked: bool)
      requires WellFormed()
      modifies this`heap, this`entries, this`since, Items()`index
      ensures WellFormed()
      ensures tracked <==> timeout > 0
      ensures !tracked ==> heap == old(heap) && entries == old(entries)
      ensures tracked ==> Log() == Apply(old(Log()), timeout, OpTrack(sess, now))
      ensures tracked && old(Bijective()) ==> (Bijective() <==> sess !in old(entries))
    {
      if timeout <= 0 { return false; }
      Enter(sess, now + timeout);
      since := since[sess := now];
      tracked := true;
    }

    method Enter(sess: SessionId, deadline: int)
      requires WellFormed()
      modifies this`heap, this`entries, Items()`index
      ensures WellFormed()
      ensures Deadlines() == old(Deadlines())[sess := deadline]
      ensures old(Bijective()) ==> (Bijective() <==> sess !in old(entries))
    {
      ghost var before, deadlines := Items(), Deadlines();
      var entry := new Entry(sess, deadline);
      HeapPush(entry);
      assert forall e :: e in heap <==> e in before || e == entry;
      assert forall s :: s in entries ==> entries[s] in before;
      assert Deadlines() == deadlines;
      Register(entry);
    }

    /** An entry pushed is entered in the map, in place of any other for its session. */
    method Register(entry: Entry)
      requires WellFormed() && entry in heap && forall s :: s in entries ==> entries[s] != entry
      modifies this`entries
      ensures WellFormed()
      ensures Deadlines() == old(Deadlines())[entry.sess := entry.deadline]
      ensures old(Except(entry)) ==> (Bijective() <==> entry.sess !in old(entries))
    {
      entries := entries[entry.sess := entry];
    }

    /** Every other entry is in the map. */
    ghost predicate Except(entry: Entry)
      reads this`heap, this`entries
    {
      forall e :: e in heap && e != entry ==> e.sess in entries && entries[e.sess] == e
    }

    method Untrack(sess: SessionId)
      requires WellFormed()
      modifies this`heap, this`entries, Items()`index
      ensures WellFormed()
      ensures timeout <= 0 ==> heap == old(heap) && entries == old(entries)
      ensures timeout > 0 ==> Log() == Apply(old(Log()), timeout, OpUntrack(sess))
      ensures old(Bijective()) ==> Bijective()
    {
      if timeout <= 0 || sess !in entries { return; }
      var entry := entries[sess];
      var removed := HeapRemove(entry.index);
      entries := entries - {sess};
      assert forall e :: e in heap <==> e in Items();
    }

    ghost function Late(now: int): set<Entry>
      reads this`heap, heap
    {
      set e | e in heap && e.deadline <= now
    }

    lemma AllLater(now: int)
      requires WellFormed() && (heap != [] ==> heap[0].deadline > now)
      ensures forall e :: e in heap ==> e.deadline > now
    {
      forall e | e in heap ensures e.deadline > now {
        var k :| 0 <= k < |heap| && heap[k] == e;
        RootIsLeast(Keys(), k);
        assert Keys()[0] == heap[0].deadline && Keys()[k] == e.deadline;
      }
    }

    /** Gives the root a later deadline. */
    method Postpone(entry: Entry, deadline: int)
      requires WellFormed() && heap != [] && entry == heap[0]
      modifies this`heap, Items()`index, entry`deadline
      ensures WellFormed() && Items() == old(Items())
      ensures entry.deadline == deadline
    {
      ghost var keys := Keys();
      entry.deadline := deadline;
      assert forall k :: 0 < k < |keys| ==> Keys()[k] == keys[k];
      forall k | 0 < k < |keys| && Parent(k) != 0 ensures Above(Keys(), k) { assert Above(keys, k); }
      ghost var before := Items();
      HeapFix(0);
      assert forall e :: e in heap <==> e in before;
    }

    /** What a sweep has done with session `s` so far. */
    ghost predicate Progress(m: map<SessionId, int>, s: SessionId, expired: seq<SessionId>, lastActive: SessionId -> int, now: int)
      requires s in m
      reads this`entries, entries.Values
    {
      if s in entries then
        && s !in expired
        && (entries[s].deadline == m[s]
            || (m[s] <= now < lastActive(s) + timeout && entries[s].deadline == lastActive(s) + timeout))
      else s in expired && Due(m, s, lastActive, timeout, now)
    }

    ghost predicate Sweeping(m: map<SessionId, int>, expired: seq<SessionId>, lastActive: SessionId -> int, now: int)
      reads this`heap, this`entries, entries.Values
    {
      && Bijective()
      && (forall s :: s in entries || s in expired ==> s in m)
      && (forall s :: s in m ==> Progress(m, s, expired, lastActive, now))
      && (forall i, j :: 0 <= i < j < |expired| ==> expired[i] != expired[j])
    }

    /** One round: the root is postponed to its last activity or leaves. */
    method Round(now: int, lastActive: SessionId -> int, expired: seq<SessionId>, ghost m: map<SessionId, int>, ghost bijective: bool)
      returns (expired': seq<SessionId>)
      requires WellFormed() && heap != [] && heap[0].deadline <= now
      requires bijective ==> Sweeping(m, expired, lastActive, now)
      modifies this`heap, this`entries, Items()`index, Items()`deadline
      ensures WellFormed() && Items() <= old(Items()) && Late(now) < old(Late(now))
      ensures bijective ==> Sweeping(m, expired', lastActive, now)
    {
      if lastActive(heap[0].sess) + timeout > now {
        expired' := expired;
        PostponeRoot(now, lastActive, expired, m, bijective);
      } else {
        expired' := DropRoot(now, lastActive, expired, m, bijective);
      }
    }

    method PostponeRoot(now: int, lastActive: SessionId -> int, ghost expired: seq<SessionId>, ghost m: map<SessionId, int>, ghost bijective: bool)
      requires WellFormed() && heap != [] && heap[0].deadline <= now < lastActive(heap[0].sess) + timeout
      requires bijective ==> Sweeping(m, expired, lastActive, now)
      modifies this`heap, Items()`index, Items()`deadline
      ensures WellFormed() && Items() == old(Items()) && Late(now) < old(Late(now))
      ensures bijective ==> Sweeping(m, expired, lastActive, now)
    {
      var entry := heap[0];
      ghost var late := Late(now);
      assert entry in late && entry in Items();
      Postpone(entry, lastActive(entry.sess) + timeout);
      assert forall e :: e in heap <==> e in Items();
      assert entry !in Late(now) && Late(now) <= late;
    }

    method DropRoot(now: int, lastActive: SessionId -> int, expired: seq<SessionId>, ghost m: map<SessionId, int>, ghost bijective: bool)
      returns (expired': seq<SessionId>)
      requires WellFormed() && heap != [] && heap[0].deadline <= now && lastActive(heap[0].sess) + timeout <= now
      requires bijective ==> Sweeping(m, expired, lastActive, now)
      modifies this`heap, this`entries, Items()`index
      ensures WellFormed() && Items() <= old(Items()) && Late(now) < old(Late(now))
      ensures bijective ==> Sweeping(m, expired', lastActive, now)
    {
      ghost var late := Late(now);
      var entry := HeapPop();
      assert entry in late;
      entries := entries - {entry.sess};
      expired' := expired + [entry.sess];
      assert forall e :: e in heap <==> e in Items();
      assert entry !in Late(now) && Late(now) <= late;
    }

    /** `_expire`. Every session's last activity is read at most once, so one function stands
        for all the reads of a sweep. The set of entries whose deadline has passed shrinks in
        every round. */
    method Sweep(now: int, lastActive: SessionId -> int) returns (expired: seq<SessionId>)
      requires WellFormed()
      modifies this`heap, this`entries, Items()`index, Items()`deadline
      ensures WellFormed()
      ensures forall e :: e in heap ==> e.deadline > now
      ensures old(Bijective()) ==>
                && Bijective()
                && Deadlines() == Swept(old(Deadlines()), lastActive, timeout, now)
                && (forall s :: s in expired <==> Due(old(Deadlines()), s, lastActive, timeout, now))
                && (forall i, j :: 0 <= i < j < |expired| ==> expired[i] != expired[j])
    {
      expired := [];
      ghost var m, bijective := Deadlines(), Bijective();
      while heap != []
        invariant WellFormed() && Items() <= old(Items())
        invariant bijective ==> Sweeping(m, expired, lastActive, now)
        decreases Late(now)
      {
        if heap[0].deadline > now { break; }
        expired := Round(now, lastActive, expired, m, bijective);
      }
      AllLater(now);
      if bijective { SweepDone(m, expired, lastActive, now); }
    }

    /** `Expire`, over the history of the sweeper: if activity never moved back, every session
        idle for the timeout since its tracking or last activity is returned. */
    method Expire(now: int, lastActive: SessionId -> int) returns (expired: seq<SessionId>)
      requires WellFormed() && Bijective()
      modifies this`heap, this`entries, this`seen, Items()`index, Items()`deadline
      ensures WellFormed() && Bijective()
      ensures Log() == Apply(old(Log()), timeout, OpSweep(now, lastActive))
      ensures forall s :: s in expired <==> Due(old(Deadlines()), s, lastActive, timeout, now)
      ensures old(Timely(Log(), timeout)) && NoEarlier(old(seen), lastActive) ==>
                && Timely(Log(), timeout)
                && forall s :: s in old(entries) ==>
                     s in old(since) && (now >= Idle(old(Log()), s, lastActive) + timeout ==> s in expired)
    {
      ghost var b, op := Log(), OpSweep(now, lastActive);
      expired := Sweep(now, lastActive);
      seen := lastActive;
      if Timely(b, timeout) && NoEarlier(b.lastActive, lastActive) {
        TimelyStep(b, timeout, op);
        forall s | s in b.deadlines
          ensures s in b.since && (now >= Idle(b, s, lastActive) + timeout ==> Due(b.deadlines, s, lastActive, timeout, now))
        {
          IdleIsDue(b, timeout, op, s);
        }
      }
    }

    lemma SweepDone(m: map<SessionId, int>, expired: seq<SessionId>, lastActive: SessionId -> int, now: int)
      requires WellFormed() && Sweeping(m, expired, lastActive, now) && forall e :: e in heap ==> e.deadline > now
      ensures Deadlines() == Swept(m, lastActive, timeout, now)
      ensures forall s :: s in expired <==> Due(m, s, lastActive, timeout, now)
    {
      forall s | s in m
        ensures s in expired <==> Due(m, s, lastActive, timeout, now)
        ensures s in entries <==> !Due(m, s, lastActive, timeout, now)
        ensures s in entries ==> entries[s].deadline == if m[s] <= now then lastActive(s) + timeout else m[s]
      {
        assert Progress(m, s, expired, lastActive, now);
        assert s in entries ==> entries[s] in heap;
      }
    }
  }

  // ---------- deadlines over time ----------

  /** Both the stored deadline and the one from the last activity have passed. */
  ghost predicate Due(m: map<SessionId, int>, s: SessionId, lastActive: SessionId -> int, timeout: int, now: int) {
    s in m && m[s] <= now && lastActive(s) + timeout <= now
  }

  ghost function Swept(m: map<SessionId, int>, lastActive: SessionId -> int, timeout: int, now: int): map<SessionId, int> {
    map s | s in m && !Due(m, s, lastActive, timeout, now) ::
      if m[s] <= now then lastActive(s) + timeout else m[s]
  }

  datatype Op =
    | OpTrack(s: SessionId, now: int)
    | OpUntrack(s: SessionId)
    | OpSweep(now: int, lastActive: SessionId -> int)

  /** The stored deadlines, with the time each session was tracked and the activity seen by
      the latest sweep. */
  datatype Book = Book(deadlines: map<SessionId, int>, since: map<SessionId, int>, lastActive: SessionId -> int)

  ghost function Apply(b: Book, timeout: int, op: Op): Book {
    match op
    case OpTrack(s, now) => b.(deadlines := b.deadlines[s := now + timeout], since := b.since[s := now])
    case OpUntrack(s) => b.(deadlines := b.deadlines - {s})
    case OpSweep(now, lastActive) =>
      b.(deadlines := Swept(b.deadlines, lastActive, timeout, now), lastActive := lastActive)
  }

  ghost predicate NoEarlier(a: SessionId -> int, b: SessionId -> int) {
    forall s :: a(s) <= b(s)
  }

  /** Only untracked sessions are tracked, and activity never moves back from one sweep to
      the next. */
  ghost predicate Allowed(b: Book, op: Op) {
    match op
    case OpTrack(s, _) => s !in b.deadlines
    case OpUntrack(_) => true
    case OpSweep(_, lastActive) => NoEarlier(b.lastActive, lastActive)
  }

  ghost predicate Run(b: Book, timeout: int, ops: seq<Op>)
    decreases |ops|
  {
    ops == [] || (Allowed(b, ops[0]) && Run(Apply(b, timeout, ops[0]), timeout, ops[1..]))
  }

  ghost function End(b: Book, timeout: int, ops: seq<Op>): Book
    decreases |ops|
  {
    if ops == [] then b else End(Apply(b, timeout, ops[0]), timeout, ops[1..])
  }

  ghost function Idle(b: Book, s: SessionId, lastActive: SessionId -> int): int
    requires s in b.since
  {
    if b.since[s] < lastActive(s) then lastActive(s) else b.since[s]
  }

  /** No stored deadline is later than the session's true one. */
  ghost predicate Timely(b: Book, timeout: int) {
    forall s :: s in b.deadlines ==> s in b.since && b.deadlines[s] <= Idle(b, s, b.lastActive) + timeout
  }

  lemma {:induction false} TimelyStep(b: Book, timeout: int, op: Op)
    requires Timely(b, timeout) && Allowed(b, op)
    ensures Timely(Apply(b, timeout, op), timeout)
  {}

  lemma {:induction false} TimelyRun(b: Book, timeout: int, ops: seq<Op>)
    requires Timely(b, timeout) && Run(b, timeout, ops)
    ensures Timely(End(b, timeout, ops), timeout)
    decreases |ops|
  {
    if ops != [] {
      TimelyStep(b, timeout, ops[0]);
      TimelyRun(Apply(b, timeout, ops[0]), timeout, ops[1..]);
    }
  }

  lemma {:induction false} IdleIsDue(b: Book, timeout: int, sweep: Op, s: SessionId)
    requires Timely(b, timeout) && sweep.OpSweep? && Allowed(b, sweep) && s in b.deadlines
    ensures s in b.since
    ensures sweep.now >= Idle(b, s, sweep.lastActive) + timeout ==>
              Due(b.deadlines, s, sweep.lastActive, timeout, sweep.now)
  {
    assert b.lastActive(s) <= sweep.lastActive(s);
  }

  /** After any sequence of operations, a sweep returns every session that has been idle for
      the timeout, counted from its tracking or its last activity, whichever is later. */
  lemma {:induction false} IdleSessionsExpire(b: Book, timeout: int, ops: seq<Op>, sweep: Op, s: SessionId)
    requires b.deadlines == map[] && Run(b, timeout, ops)
    requires sweep.OpSweep? && Allowed(End(b, timeout, ops), sweep) && s in End(b, timeout, ops).deadlines
    ensures s in End(b, timeout, ops).since
    ensures sweep.now >= Idle(End(b, timeout, ops), s, sweep.lastActive) + timeout ==>
              Due(End(b, timeout, ops).deadlines, s, sweep.lastActive, timeout, sweep.now)
  {
    TimelyRun(b, timeout, ops);
    IdleIsDue(End(b, timeout, ops), timeout, sweep, s);
  }
}
