/** When the out-of-order core makes progress, and when it is stuck for good. */
module CoreProgress {
  import opened Common
  import opened Occupancy
  import opened WholeCore
  import Registers
  import LoadStore
  import LoadQueues
  import RegisterProgress
  import MemoryProgress

  // ----- What can still be done -------------------------------------------------------------

  /** The number of stores among the instructions low .. high - 1. */
  function StoreCount(s: seq<LoadStore.Entry>, low: nat, high: nat): (n: nat)
    requires high <= |s|
  {
    if high <= low then 0 else StoreCount(s, low, high - 1) + One(s[high - 1].store != 0)
  }

  /** Instruction i can complete without any more load entering the load queue. */
  ghost predicate CanComplete(m: Machine, i: nat)
    decreases i, 3
  {
    && i < m.regs.next && i < |m.regs.entry| && i < |m.mem.entry| && |m.mem.entry[i].state| == LOADS
    && |m.mem.entry[i].loads| == LOADS
    && (m.regs.entry[i].executed == Registers.Completed ||
          (CanReady(m, i) && (m.mem.entry[i].store != 0 ==> CanStore(m, i))
           && forall j :: 0 <= j < LOADS && m.mem.entry[i].loads[j] != 0 ==> CanLoad(m, i, j)))
  }

  /** Its registers can become ready. */
  ghost predicate CanReady(m: Machine, i: nat)
    decreases i, 0
  {
    && i < m.regs.next && i < |m.regs.entry| && |m.regs.entry[i].producers| == SOURCES
    && forall j :: 0 <= j < SOURCES && m.regs.entry[i].producers[j].Some? ==>
         var p := m.regs.entry[i].producers[j].value;
         p < i && CanComplete(m, p)
  }

  /** Its store can execute: it is in the queue, or all the stores that have to enter first and itself can. */
  ghost predicate CanStore(m: Machine, p: nat)
    decreases p, 1
  {
    && p < |m.mem.entry|
    && (m.mem.entry[p].inQueue ||
          (StoreCount(m.mem.entry, m.mem.head, p + 1) <= SQ_SIZE
           && forall k :: m.mem.head <= k <= p && m.mem.entry[k].store != 0 && !m.mem.entry[k].inQueue ==>
                CanReady(m, k)))
  }

  /** Load j of i has entered, and goes to the cache or waits for a store that can execute. */
  ghost predicate CanLoad(m: Machine, i: nat, j: nat)
    decreases i, 2
  {
    && i < |m.mem.entry| && j < |m.mem.entry[i].state|
    && match m.mem.entry[i].state[j]
       case Outside => false
       case Sent => true
       case Released(_) => true
       case Waiting(p) => p < i && CanStore(m, p)
  }

  ghost predicate KeptOut(e: LoadStore.Entry)
    requires |e.loads| == LOADS == |e.state|
  {
    exists j :: 0 <= j < LOADS && !LoadIn(e, j)
  }

  /** The oldest instruction has a load that has not entered, all slots of the load queue are taken, and no load in it
      can be served. */
  ghost predicate Jammed(m: Machine) {
    && LoadStore.WellFormed(m.mem) && m.mem.head < |m.mem.entry| && KeptOut(m.mem.entry[m.mem.head])
    && |LoadsHeld(m.mem)| >= LQ_SIZE
    && forall i, j :: LoadQueues.Live(m.mem, i, j) ==> !CanLoad(m, i, j)
  }

  // ----- Quiet steps ------------------------------------------------------------------------

  /** From m to m' no load enters and nothing retires; what happens to the instructions scheduled could have been
      foreseen. */
  ghost predicate Quiet(m: Machine, m': Machine) {
    && m.regs.next <= m'.regs.next && m.regs.next <= |m.regs.entry| == |m.mem.entry| <= |m'.mem.entry|
    && |m'.regs.entry| == |m'.mem.entry| && m'.mem.head == m.mem.head
    && forall k :: 0 <= k < m.regs.next ==> QuietAt(m, m', k)
  }

  ghost predicate QuietAt(m: Machine, m': Machine, k: nat)
    requires k < |m.regs.entry| && k < |m.mem.entry| && k < |m'.regs.entry| && k < |m'.mem.entry|
  {
    var r, r', q, q' := m.regs.entry[k], m'.regs.entry[k], m.mem.entry[k], m'.mem.entry[k];
    && |q.loads| == LOADS == |q.state| && |q'.state| == LOADS && |r.producers| == SOURCES
    && r'.producers == r.producers && q'.loads == q.loads && q'.store == q.store
    && (r.executed == Registers.Completed ==> r'.executed == Registers.Completed)
    && (r'.executed == Registers.Completed ==> CanComplete(m, k))
    && (q.inQueue ==> q'.inQueue) && (q'.inQueue ==> CanStore(m, k))
    && (q'.inQueue && !q.inQueue ==> CanReady(m, k))
    && forall j :: 0 <= j < LOADS ==>
         q'.state[j] == q.state[j] || (q'.state[j].Released? && q.state[j] != LoadStore.Outside && CanLoad(m, k, j))
  }

  lemma {:induction false} CountSame(s: seq<LoadStore.Entry>, s': seq<LoadStore.Entry>, low: nat, high: nat)
    requires high <= |s| && high <= |s'| && forall k :: low <= k < high ==> s'[k].store == s[k].store
    ensures StoreCount(s', low, high) == StoreCount(s, low, high)
  {
    if low < high {
      CountSame(s, s', low, high - 1);
    }
  }

  lemma {:induction false} CompleteSame(m: Machine, m': Machine, i: nat)
    requires Quiet(m, m') && i < m.regs.next
    ensures CanComplete(m', i) <==> CanComplete(m, i)
    decreases i, 3
  {
    assert QuietAt(m, m', i);
    ReadySame(m, m', i);
    StoreSame(m, m', i);
    forall j | 0 <= j < LOADS ensures CanLoad(m', i, j) <==> CanLoad(m, i, j) {
      LoadSame(m, m', i, j);
    }
  }

  lemma {:induction false} ReadySame(m: Machine, m': Machine, i: nat)
    requires Quiet(m, m') && i < m.regs.next
    ensures CanReady(m', i) <==> CanReady(m, i)
    decreases i, 0
  {
    assert QuietAt(m, m', i);
    forall j | 0 <= j < SOURCES && m.regs.entry[i].producers[j].Some? && m.regs.entry[i].producers[j].value < i
      ensures CanComplete(m', m.regs.entry[i].producers[j].value) <==>
        CanComplete(m, m.regs.entry[i].producers[j].value)
    {
      CompleteSame(m, m', m.regs.entry[i].producers[j].value);
    }
  }

  lemma {:induction false} StoreSame(m: Machine, m': Machine, p: nat)
    requires Quiet(m, m') && p < m.regs.next
    ensures CanStore(m', p) <==> CanStore(m, p)
    decreases p, 1
  {
    assert QuietAt(m, m', p);
    forall k: nat | m.mem.head <= k <= p ensures CanReady(m', k) <==> CanReady(m, k) {
      ReadySame(m, m', k);
    }
    forall k: nat | m.mem.head <= k <= p
      ensures m'.mem.entry[k].store == m.mem.entry[k].store
      ensures m.mem.entry[k].inQueue ==> m'.mem.entry[k].inQueue
      ensures m'.mem.entry[k].inQueue && !m.mem.entry[k].inQueue ==> CanReady(m, k)
    {
      assert QuietAt(m, m', k);
    }
    CountSame(m.mem.entry, m'.mem.entry, m.mem.head, p + 1);
  }

  lemma {:induction false} LoadSame(m: Machine, m': Machine, i: nat, j: nat)
    requires Quiet(m, m') && i < m.regs.next && j < LOADS
    ensures CanLoad(m', i, j) <==> CanLoad(m, i, j)
    decreases i, 2
  {
    assert QuietAt(m, m', i);
    var s := m.mem.entry[i].state[j];
    if s.Waiting? && s.store < i {
      StoreSame(m, m', s.store);
    }
  }

  // ----- Which steps are quiet --------------------------------------------------------------

  predicate IsQuiet(e: Event) {
    !e.LoadEnters? && !e.RetireOne?
  }

  /** What is ready can be. */
  lemma ReadyCan(m: Machine, i: nat)
    requires m in Sound() && i < |m.regs.entry| && m.regs.entry[i].ready
    ensures i < m.regs.next && CanReady(m, i)
  {
    if i >= m.regs.next {
      UnscheduledIdle(m.regs, i);
    }
    ReadyMeans(m.regs, i);
    forall j | 0 <= j < SOURCES && m.regs.entry[i].producers[j].Some?
      ensures CanComplete(m, m.regs.entry[i].producers[j].value)
    {
      CompletedCan(m, m.regs.entry[i].producers[j].value);
    }
  }

  lemma CompletedCan(m: Machine, i: nat)
    requires m in Sound() && i < |m.regs.entry| && m.regs.entry[i].executed == Registers.Completed
    ensures CanComplete(m, i)
  {
    if i >= m.regs.next {
      UnscheduledIdle(m.regs, i);
    }
    assert Agree(m.regs.entry[i], m.mem.entry[i]);
  }

  /** An instruction whose operations are done can complete once its registers are ready. */
  lemma DoneCan(m: Machine, i: nat)
    requires m in Sound() && i < |m.mem.entry| && m.mem.entry[i].pending == 0 && CanReady(m, i)
    ensures CanComplete(m, i)
  {
    assert LoadStore.EntryOk(m.mem, i);
    forall j | 0 <= j < LOADS && m.mem.entry[i].loads[j] != 0 ensures CanLoad(m, i, j) {
      assert !LoadStore.Unfinished(m.mem.entry[i], j);
    }
  }

  /** The instruction that completes could. */
  lemma CompletingCan(m: Machine, e: Event)
    requires m in Sound() && Possible(m, e) && e.CompleteOne?
    ensures CanComplete(m, e.i)
  {
    if e.i >= m.regs.next {
      UnscheduledIdle(m.regs, e.i);
    }
    assert Registers.ScheduledOk(m.regs, e.i, {});
    ReadyCan(m, e.i);
    DoneCan(m, e.i);
  }

  /** Stores in the queue are older than the others: so many there are up to the oldest outside. */
  lemma CountHeld(c: LoadStore.Core, p: nat)
    requires c.head <= p <= |c.entry| && forall k :: c.head <= k < p && c.entry[k].store != 0 ==> c.entry[k].inQueue
    ensures StoreCount(c.entry, c.head, p) <= |StoresHeld(c)|
  {
    var s := OlderStores(c, p);
    SubsetSize(s, StoresHeld(c));
  }

  lemma {:induction false} OlderStores(c: LoadStore.Core, p: nat) returns (s: set<nat>)
    requires c.head <= p <= |c.entry| && forall k :: c.head <= k < p && c.entry[k].store != 0 ==> c.entry[k].inQueue
    ensures s <= StoresHeld(c) && |s| == StoreCount(c.entry, c.head, p) && forall k :: k in s ==> k < p
    decreases p
  {
    if p == c.head {
      s := {};
    } else {
      s := OlderStores(c, p - 1);
      if c.entry[p - 1].store != 0 {
        s := s + {p - 1};
      }
    }
  }

  /** The store that enters could. */
  lemma EnteringCan(m: Machine, e: Event)
    requires m in Sound() && Possible(m, e) && e.StoreEnters?
    ensures CanStore(m, e.i) && CanReady(m, e.i)
  {
    ReadyCan(m, e.i);
    CountHeld(m.mem, e.i);
  }

  /** The load that a step serves could be. */
  lemma ServedCan(m: Machine, e: Event, k: nat, j: nat)
    requires m in Sound() && Possible(m, e) && k < |m.mem.entry| && j < LOADS
    requires var s := m.mem.entry[k].state[j];
      (e.StoreExecutes? && s == LoadStore.Waiting(e.p)) || (e == CacheAnswers(k, j) && s == LoadStore.Sent)
    ensures CanLoad(m, k, j)
  {
    if e.StoreExecutes? {
      LoadStore.WaiterIsDependent(m.mem, e.p, k, j);
    }
  }

  lemma StepQuietAt(m: Machine, e: Event, k: nat)
    requires m in Sound() && Possible(m, e) && IsQuiet(e) && k < m.regs.next
    ensures k < |Step(m, e).regs.entry| && k < |Step(m, e).mem.entry| && QuietAt(m, Step(m, e), k)
  {
    var m' := Step(m, e);
    assert Agree(m.regs.entry[k], m.mem.entry[k]);
    RegKept(m, e, k);
    LinksKept(m, e, k);
    MemKept(m, e, k);
    if m.regs.entry[k].executed == Registers.Completed {
      CompletedCan(m, k);
    }
    if e == CompleteOne(k, []) || (e.CompleteOne? && e.i == k) {
      CompletingCan(m, e);
    }
    if e == StoreEnters(k) {
      EnteringCan(m, e);
    }
    forall j | 0 <= j < LOADS && m'.mem.entry[k].state[j] != m.mem.entry[k].state[j] ensures CanLoad(m, k, j) {
      ServedCan(m, e, k, j);
    }
  }

  lemma LinksKept(m: Machine, e: Event, k: nat)
    requires m in Sound() && Possible(m, e) && k < m.regs.next
    ensures k < |Step(m, e).regs.entry| && |m.regs.entry[k].producers| == SOURCES
    ensures Step(m, e).regs.entry[k].producers == m.regs.entry[k].producers
  {
    if RegEvent(e).Some? {
      RegFrame(m.regs, RegEvent(e).value, k);
    }
  }

  lemma StepQuiet(m: Machine, e: Event)
    requires m in Sound() && Possible(m, e) && IsQuiet(e)
    ensures Quiet(m, Step(m, e))
  {
    SizesKept(m, e);
    forall k | 0 <= k < m.regs.next ensures QuietAt(m, Step(m, e), k) {
      StepQuietAt(m, e, k);
    }
  }

  // ----- A jam lasts ------------------------------------------------------------------------

  /** Loads that hold a slot are those of scheduled instructions. */
  lemma LiveScheduled(m: Machine, i: nat, j: nat)
    requires m in Sound() && LoadQueues.Live(m.mem, i, j)
    ensures i < m.regs.next
  {
    assert Agree(m.regs.entry[i], m.mem.entry[i]);
    ReadyCan(m, i);
  }

  lemma QuietJam(m: Machine, e: Event)
    requires m in Sound() && Possible(m, e) && IsQuiet(e) && Jammed(m)
    ensures Jammed(Step(m, e))
  {
    var m' := Step(m, e);
    StepKeeps(m, e);
    StepQuiet(m, e);
    forall i: nat, j: nat | LoadQueues.Live(m'.mem, i, j) ensures !CanLoad(m', i, j) {
      LiveAfterQuiet(m, e, i, j);
      LiveScheduled(m, i, j);
      LoadSame(m, m', i, j);
    }
    forall x | x in LoadsHeld(m.mem) ensures x in LoadsHeld(m'.mem) {
      StaysHeld(m, e, x / LOADS, x % LOADS);
    }
    SubsetSize(LoadsHeld(m.mem), LoadsHeld(m'.mem));
    StaysOut(m, e);
  }

  lemma LiveAfterQuiet(m: Machine, e: Event, i: nat, j: nat)
    requires m in Sound() && Possible(m, e) && IsQuiet(e) && LoadQueues.Live(Step(m, e).mem, i, j)
    ensures LoadQueues.Live(m.mem, i, j)
  {
    SizesKept(m, e);
    if i < |m.mem.entry| {
      LiveBefore(m, e, i, j);
    }
  }

  lemma StaysHeld(m: Machine, e: Event, i: nat, j: nat)
    requires m in Sound() && Possible(m, e) && IsQuiet(e) && LoadQueues.Live(m.mem, i, j) && !CanLoad(m, i, j)
    ensures LoadQueues.Live(Step(m, e).mem, i, j)
  {
    LiveScheduled(m, i, j);
    SizesKept(m, e);
    StepQuietAt(m, e, i);
  }

  lemma StaysOut(m: Machine, e: Event)
    requires m in Sound() && Possible(m, e) && IsQuiet(e) && m.mem.head < |m.mem.entry|
    ensures var m' := Step(m, e);
      && m'.mem.head == m.mem.head < |m'.mem.entry| && |m'.mem.entry[m.mem.head].loads| == LOADS
      && LoadStore.WellFormed(m'.mem) && (KeptOut(m'.mem.entry[m.mem.head]) <==> KeptOut(m.mem.entry[m.mem.head]))
  {
    var h, m' := m.mem.head, Step(m, e);
    SizesKept(m, e);
    StepKeeps(m, e);
    MemKept(m, e, h);
    forall j | 0 <= j < LOADS ensures LoadIn(m'.mem.entry[h], j) <==> LoadIn(m.mem.entry[h], j) {}
  }

  /** The oldest instruction of a jammed core does not retire, and no load enters. */
  lemma JamHolds(m: Machine, e: Event)
    requires m in Sound() && Possible(m, e) && Jammed(m)
    ensures IsQuiet(e)
  {
    var h := m.mem.head;
    assert LoadStore.EntryOk(m.mem, h);
    var j :| 0 <= j < LOADS && !LoadIn(m.mem.entry[h], j);
    assert LoadStore.Unfinished(m.mem.entry[h], j);
  }

  /** A jammed core stays so whatever happens: its oldest instruction never retires. */
  lemma {:induction false} JamLasts(events: seq<Event>, ms: seq<Machine>, n: nat)
    requires Path(events, ms) && ms[0] in Sound() && Jammed(ms[0]) && n <= |events|
    ensures Jammed(ms[n]) && ms[n].mem.head == ms[0].mem.head
  {
    if n > 0 {
      var k := n - 1;
      JamLasts(events, ms, k);
      PathSound(events, ms, k);
      JamHolds(ms[k], events[k]);
      QuietJam(ms[k], events[k]);
      SizesKept(ms[k], events[k]);
    }
  }

  // ----- Steps towards what can be done -----------------------------------------------------

  /** A step that lets no load enter, of instructions that have been scheduled. */
  ghost predicate Helps(m: Machine, e: Event) {
    Possible(m, e) && IsQuiet(e) && !e.DispatchOne? && !e.ScheduleOne?
  }

  lemma {:induction false} ReadyStep(m: Machine, i: nat) returns (e: Event)
    requires m in Sound() && CanReady(m, i) && !m.regs.entry[i].ready
    ensures Helps(m, e)
    decreases i, 0
  {
    ReadyMeans(m.regs, i);
    var j :| 0 <= j < SOURCES && m.regs.entry[i].producers[j].Some? &&
      m.regs.entry[m.regs.entry[i].producers[j].value].executed != Registers.Completed;
    e := CompleteStep(m, m.regs.entry[i].producers[j].value);
  }

  lemma InBuffer(m: Machine, i: nat)
    requires m in Sound() && i < m.regs.next && m.regs.entry[i].executed != Registers.Completed
    ensures m.mem.head <= i < |m.mem.entry|
  {
    assert Registers.ScheduledOk(m.regs, i, {});
  }

  lemma {:induction false} CompleteStep(m: Machine, i: nat) returns (e: Event)
    requires m in Sound() && CanComplete(m, i) && m.regs.entry[i].executed != Registers.Completed
    ensures Helps(m, e)
    decreases i, 3
  {
    InBuffer(m, i);
    assert Registers.ScheduledOk(m.regs, i, {}) && Agree(m.regs.entry[i], m.mem.entry[i]);
    if !m.regs.entry[i].ready {
      e := ReadyStep(m, i);
    } else if m.regs.entry[i].executed == Registers.Inflight {
      e := FinishStep(m, i);
    } else if m.regs.entry[i].memory {
      if m.mem.entry[i].store != 0 && !m.mem.entry[i].inQueue {
        StoreNotDone(m, i);
        e := StoreStep(m, i);
      } else {
        forall j | 0 <= j < LOADS ensures LoadIn(m.mem.entry[i], j) {}
        e := StartMemory(i);
      }
    } else {
      e := IssueStep(m, i);
    }
  }

  lemma StoreNotDone(m: Machine, i: nat)
    requires m in Sound() && i < |m.mem.entry| && !m.mem.entry[i].inQueue
    ensures !m.mem.entry[i].done
  {
    assert LoadStore.EntryOk(m.mem, i);
  }

  lemma IssueStep(m: Machine, i: nat) returns (e: Event)
    requires m in Sound() && i < |m.regs.entry| && m.regs.entry[i].ready && !m.regs.entry[i].memory
    requires m.regs.entry[i].executed == Registers.Idle
    ensures Helps(m, e)
  {
    assert i in m.regs.rte0 + m.regs.rte1;
    e := ExecuteOne(m.regs.rte0 != []);
    Registers.RingHead(m.regs, m.regs.rte0 != []);
  }

  lemma {:induction false} FinishStep(m: Machine, i: nat) returns (e: Event)
    requires m in Sound() && CanComplete(m, i) && m.regs.entry[i].executed == Registers.Inflight
    ensures Helps(m, e)
    decreases i, 2
  {
    InBuffer(m, i);
    assert LoadStore.EntryOk(m.mem, i) && Agree(m.regs.entry[i], m.mem.entry[i]);
    var q := m.mem.entry[i];
    if q.pending == 0 {
      e := CompletionStep(m, i);
    } else if q.store != 0 && !q.done {
      e := StoreStep(m, i);
    } else {
      var j :| 0 <= j < LOADS && LoadStore.Unfinished(q, j);
      e := LoadStep(m, i, j);
    }
  }

  lemma CompletionStep(m: Machine, i: nat) returns (e: Event)
    requires m in Sound() && i < m.regs.next && m.regs.entry[i].executed == Registers.Inflight
    requires m.mem.entry[i].pending == 0
    ensures Helps(m, e)
  {
    InBuffer(m, i);
    assert Agree(m.regs.entry[i], m.mem.entry[i]);
    var order := RegisterProgress.DependentsAll(m.regs, i);
    e := CompleteOne(i, order);
  }

  lemma {:induction false} LoadStep(m: Machine, i: nat, j: nat) returns (e: Event)
    requires m in Sound() && LoadQueues.Live(m.mem, i, j) && CanLoad(m, i, j)
    ensures Helps(m, e)
    decreases i, 1
  {
    assert LoadStore.LoadOk(m.mem, i, j);
    match m.mem.entry[i].state[j]
    case Sent => e := CacheAnswers(i, j);
    case Waiting(p) => e := StoreStep(m, p);
  }

  lemma {:induction false} CountMore(s: seq<LoadStore.Entry>, low: nat, k: nat, high: nat)
    requires k <= high <= |s|
    ensures StoreCount(s, low, k) <= StoreCount(s, low, high)
  {
    if k < high {
      CountMore(s, low, k, high - 1);
    }
  }

  /** The stores in the queue below p. */
  ghost function HeldBelow(c: LoadStore.Core, p: nat): set<nat> {
    set i | i in StoresHeld(c) && i < p
  }

  lemma {:induction false} HeldBelowCount(c: LoadStore.Core, p: nat)
    requires p <= |c.entry| && forall k :: 0 <= k < |c.entry| && c.entry[k].inQueue ==> c.entry[k].store != 0
    ensures |HeldBelow(c, p)| <= StoreCount(c.entry, c.head, p)
  {
    if p <= c.head {
      assert HeldBelow(c, p) == {};
    } else {
      HeldBelowCount(c, p - 1);
      SubsetSize(HeldBelow(c, p), HeldBelow(c, p - 1) + if c.entry[p - 1].inQueue then {p - 1} else {});
    }
  }

  /** The oldest store outside, at p or before it. */
  lemma OldestOutside(c: LoadStore.Core, p: nat) returns (k: nat)
    requires c.head <= p < |c.entry| && c.entry[p].store != 0 && !c.entry[p].inQueue
    ensures c.head <= k <= p && c.entry[k].store != 0 && !c.entry[k].inQueue && InTurn(c, k)
  {
    var outside := set i: nat | c.head <= i <= p && c.entry[i].store != 0 && !c.entry[i].inQueue;
    assert p in outside;
    k := Least(outside);
    forall i: nat | LoadQueues.InWindow(c, i) && i < k && c.entry[i].store != 0 ensures c.entry[i].inQueue {
      assert i in outside || c.entry[i].inQueue;
    }
  }

  /** The queue has room for the oldest store outside, if no more stores come before another than it has places. */
  lemma RoomFor(m: Machine, k: nat, p: nat)
    requires m in Sound() && m.mem.head <= k <= p < |m.mem.entry| && m.mem.entry[k].store != 0
    requires !m.mem.entry[k].inQueue && StoreCount(m.mem.entry, m.mem.head, p + 1) <= SQ_SIZE
    ensures |StoresHeld(m.mem)| < SQ_SIZE
  {
    var c := m.mem;
    forall i | 0 <= i < |c.entry| && c.entry[i].inQueue ensures c.entry[i].store != 0 {
      assert Agree(m.regs.entry[i], c.entry[i]);
    }
    forall i | i in StoresHeld(c) ensures i < k {
      assert InTurn(c, i);
    }
    assert HeldBelow(c, k) == StoresHeld(c);
    HeldBelowCount(c, k);
    CountMore(c.entry, c.head, k + 1, p + 1);
  }

  lemma {:induction false} StoreStep(m: Machine, p: nat) returns (e: Event)
    requires m in Sound() && CanStore(m, p) && m.mem.head <= p && m.mem.entry[p].store != 0 && !m.mem.entry[p].done
    ensures Helps(m, e)
    decreases p, 1
  {
    if m.mem.entry[p].inQueue {
      e := StoreExecutes(p);
    } else {
      var k := OldestOutside(m.mem, p);
      if !m.regs.entry[k].ready {
        e := ReadyStep(m, k);
      } else {
        RoomFor(m, k, p);
        StoreMayEnter(m, k);
        e := StoreEnters(k);
      }
    }
  }

  lemma StoreMayEnter(m: Machine, k: nat)
    requires m in Sound() && k < |m.mem.entry| && m.mem.entry[k].store != 0 && !m.mem.entry[k].inQueue
    requires m.regs.entry[k].ready
    ensures MayOperate(m.regs, k)
  {
    ReadyCan(m, k);
    assert Registers.ScheduledOk(m.regs, k, {}) && Agree(m.regs.entry[k], m.mem.entry[k]);
  }

  // ----- Progress ---------------------------------------------------------------------------

  /** The oldest instruction can complete if its loads have entered. */
  lemma HeadCan(m: Machine)
    requires m in Sound() && m.regs.head < m.regs.next && LoadStore.WellFormed(m.mem)
    requires !KeptOut(m.mem.entry[m.regs.head])
    ensures CanComplete(m, m.regs.head)
  {
    var h := m.regs.head;
    HeadReady(m);
    ReadyCan(m, h);
    forall j | 0 <= j < LOADS && m.mem.entry[h].loads[j] != 0 ensures CanLoad(m, h, j) {
      assert LoadIn(m.mem.entry[h], j) && LoadStore.LoadOk(m.mem, h, j);
    }
    assert StoreCount(m.mem.entry, h, h) == 0 && StoreCount(m.mem.entry, h, h + 1) <= 1;
  }

  lemma HeadReady(m: Machine)
    requires m in Sound() && m.regs.head < m.regs.next
    ensures m.regs.entry[m.regs.head].ready
  {
    var h := m.regs.head;
    ReadyMeans(m.regs, h);
    forall j | 0 <= j < SOURCES && m.regs.entry[h].producers[j].Some?
      ensures m.regs.entry[m.regs.entry[h].producers[j].value].executed == Registers.Completed
    {
      assert Registers.ScheduledOk(m.regs, m.regs.entry[h].producers[j].value, {});
    }
  }

  /** The next load of the oldest instruction enters while there is a slot, and goes to the cache. */
  lemma HeadEnters(m: Machine) returns (e: Event)
    requires m in Sound() && m.regs.head < m.regs.next && LoadStore.WellFormed(m.mem)
    requires KeptOut(m.mem.entry[m.regs.head]) && |LoadsHeld(m.mem)| < LQ_SIZE
    ensures Possible(m, e) && e.LoadEnters? && !Jammed(Step(m, e))
  {
    var h := m.regs.head;
    var q := m.mem.entry[h];
    HeadReady(m);
    var j := FirstOut(q, 0);
    assert Agree(m.regs.entry[h], q) && Registers.ScheduledOk(m.regs, h, {});
    assert !AllIn(q) by {
      assert !LoadIn(q, j);
    }
    e := LoadEnters(h, j);
    var m' := Step(m, e);
    LoadStore.AddLoadShape(m.mem, h, j, h);
    assert m'.mem.entry[h].state[j] == LoadStore.Sent;
    assert LoadQueues.Live(m'.mem, h, j) && CanLoad(m', h, j);
  }

  /** The first load, from j on, that has not entered. */
  function FirstOut(e: LoadStore.Entry, j: nat): (k: nat)
    requires |e.loads| == LOADS == |e.state| && j <= LOADS
    ensures j <= k <= LOADS && (k < LOADS ==> !LoadIn(e, k)) && forall l :: j <= l < k ==> LoadIn(e, l)
    decreases LOADS - j, e
  {
    if j == LOADS || !LoadIn(e, j) then j else FirstOut(e, j + 1)
  }

  /** A step that helps does not make a jam out of nothing. */
  lemma HelpNoJam(m: Machine, e: Event, i: nat, j: nat)
    requires m in Sound() && Helps(m, e) && LoadQueues.Live(m.mem, i, j) && CanLoad(m, i, j)
    ensures !Jammed(Step(m, e))
  {
    var m' := Step(m, e);
    LiveScheduled(m, i, j);
    StepQuiet(m, e);
    LoadSame(m, m', i, j);
    if !LoadQueues.Live(m'.mem, i, j) {
      OneFewer(m, e, i, j);
    }
  }

  /** If a load leaves its slot, there is one free afterwards. */
  lemma OneFewer(m: Machine, e: Event, i: nat, j: nat)
    requires m in Sound() && Helps(m, e) && LoadQueues.Live(m.mem, i, j) && !LoadQueues.Live(Step(m, e).mem, i, j)
    ensures |LoadsHeld(Step(m, e).mem)| < LQ_SIZE
  {
    var held, held', x := LoadsHeld(m.mem), LoadsHeld(Step(m, e).mem), LoadNumber(i, j);
    NumberSplit(i, j);
    assert x in held && x !in held';
    forall y | y in held' ensures y in held {
      LiveAfterQuiet(m, e, y / LOADS, y % LOADS);
    }
    SubsetSize(held', held - {x});
  }

  /** While a core with instructions in the buffer is not jammed, a step other than dispatch is possible that
      retires the oldest instruction or leaves the core not jammed. */
  lemma NextStep(m: Machine) returns (e: Event)
    requires m in Sound() && m.mem.head < |m.mem.entry| && !Jammed(m)
    ensures Possible(m, e) && !e.DispatchOne? && (e == RetireOne || !Jammed(Step(m, e)))
  {
    var h := m.regs.head;
    assert LoadStore.WellFormed(m.mem) && m.mem.head == h;
    if h == m.regs.next {
      e := ScheduleOne;
      forall x | x in LoadsHeld(m.mem) ensures false {
        LiveScheduled(m, x / LOADS, x % LOADS);
      }
      assert LoadsHeld(m.mem) == {};
    } else if m.regs.entry[h].executed == Registers.Completed {
      assert Agree(m.regs.entry[h], m.mem.entry[h]);
      e := RetireOne;
    } else if !KeptOut(m.mem.entry[h]) {
      HeadCan(m);
      e := CompleteStep(m, h);
      StaysOut(m, e);
    } else if |LoadsHeld(m.mem)| < LQ_SIZE {
      e := HeadEnters(m);
    } else {
      var i, j :| LoadQueues.Live(m.mem, i, j) && CanLoad(m, i, j);
      e := LoadStep(m, i, j);
      HelpNoJam(m, e, i, j);
    }
  }

  /** The work left of either kind. */
  ghost function Work(m: Machine): int
    requires LoadStore.WellFormed(m.mem)
  {
    RegisterProgress.Work(m.regs) + MemoryProgress.Work(m.mem)
  }

  lemma WorkFalls(m: Machine, e: Event)
    requires m in Sound() && Possible(m, e) && !e.DispatchOne?
    ensures LoadStore.WellFormed(Step(m, e).mem) && Work(Step(m, e)) < Work(m)
  {
    StepKeeps(m, e);
    if RegEvent(e).Some? {
      RegisterProgress.StepWorks(m.regs, RegEvent(e).value);
    }
    if MemEvent(e).Some? {
      MemoryProgress.StepWorks(m.mem, MemEvent(e).value);
    }
  }

  lemma WorkNatural(m: Machine)
    requires m in Sound()
    ensures LoadStore.WellFormed(m.mem) && Work(m) >= 0
  {}

  /** While a core is not jammed, possible steps lead on until its oldest instruction has retired. */
  lemma {:induction false} RetiresLater(m: Machine) returns (events: seq<Event>, ms: seq<Machine>)
    requires m in Sound() && m.mem.head < |m.mem.entry| && !Jammed(m) && LoadStore.WellFormed(m.mem)
    ensures Path(events, ms) && ms[0] == m && ms[|events|].mem.head == m.mem.head + 1
    decreases Work(m)
  {
    var e := NextStep(m);
    SizesKept(m, e);
    if e == RetireOne {
      events, ms := [e], [m, Step(m, e)];
    } else {
      var m' := NextOk(m, e);
      var events', ms' := RetiresLater(m');
      events, ms := PathFirst(m, e, events', ms');
    }
  }

  lemma NextOk(m: Machine, e: Event) returns (m': Machine)
    requires m in Sound() && m.mem.head < |m.mem.entry| && LoadStore.WellFormed(m.mem)
    requires Possible(m, e) && !e.DispatchOne? && e != RetireOne && !Jammed(Step(m, e))
    ensures m' == Step(m, e) && m' in Sound() && m'.mem.head == m.mem.head < |m'.mem.entry| && !Jammed(m')
    ensures LoadStore.WellFormed(m'.mem) && 0 <= Work(m') < Work(m)
  {
    m' := Step(m, e);
    SizesKept(m, e);
    StepKeeps(m, e);
    WorkFalls(m, e);
    WorkNatural(m');
  }

  lemma PathFirst(m: Machine, e: Event, events: seq<Event>, ms: seq<Machine>)
    returns (events': seq<Event>, ms': seq<Machine>)
    requires Possible(m, e) && Path(events, ms) && ms[0] == Step(m, e)
    ensures Path(events', ms') && ms'[0] == m && ms'[|events'|] == ms[|events|]
  {
    events', ms' := [e] + events, [m] + ms;
    forall n | 0 <= n < |events'| ensures Possible(ms'[n], events'[n]) && ms'[n + 1] == Step(ms'[n], events'[n]) {
      if n > 0 {
        assert ms'[n] == ms[n - 1] && events'[n] == events[n - 1] && ms'[n + 1] == ms[n];
      }
    }
  }

  /** Whatever happens, the oldest instruction never retires. */
  ghost predicate Doomed(m: Machine) {
    forall events, ms: seq<Machine> :: Path(events, ms) && ms[0] == m ==> ms[|events|].mem.head == m.mem.head
  }

  /** A core with instructions in the buffer is stuck for good exactly when it is jammed. */
  lemma DoomedExactly(m: Machine)
    requires Attained(m) && m.mem.head < |m.mem.entry|
    ensures Doomed(m) <==> Jammed(m)
  {
    AttainedSound(m);
    if Jammed(m) {
      forall events, ms: seq<Machine> | Path(events, ms) && ms[0] == m ensures ms[|events|].mem.head == m.mem.head {
        JamLasts(events, ms, |events|);
      }
    } else {
      var events, ms := RetiresLater(m);
      assert Path(events, ms) && ms[0] == m;
    }
  }

  /** Without dispatch every step does some of the work that was left, so there are at most so many; and where no such
      step is possible, the buffer is empty or the core jammed. */
  lemma {:induction false} Drains(events: seq<Event>, ms: seq<Machine>)
    requires Path(events, ms) && Attained(ms[0]) && forall n :: 0 <= n < |events| ==> !events[n].DispatchOne?
    ensures LoadStore.WellFormed(ms[0].mem) && LoadStore.WellFormed(ms[|events|].mem)
    ensures 0 <= Work(ms[|events|]) <= Work(ms[0]) - |events|
    ensures var m := ms[|events|];
      (forall e :: Possible(m, e) ==> e.DispatchOne?) ==> m.mem.head == |m.mem.entry| || Jammed(m)
  {
    AttainedSound(ms[0]);
    DrainsTo(events, ms, |events|);
    var m := ms[|events|];
    PathSound(events, ms, |events|);
    if m.mem.head != |m.mem.entry| && !Jammed(m) {
      var e := NextStep(m);
      assert Possible(m, e) && !e.DispatchOne?;
    }
  }

  lemma {:induction false} DrainsTo(events: seq<Event>, ms: seq<Machine>, n: nat)
    requires Path(events, ms) && ms[0] in Sound() && n <= |events|
    requires forall k :: 0 <= k < |events| ==> !events[k].DispatchOne?
    ensures LoadStore.WellFormed(ms[0].mem) && LoadStore.WellFormed(ms[n].mem)
    ensures 0 <= Work(ms[n]) <= Work(ms[0]) - n
  {
    PathSound(events, ms, n);
    WorkNatural(ms[n]);
    if n > 0 {
      var k := n - 1;
      DrainsTo(events, ms, k);
      PathSound(events, ms, k);
      WorkFalls(ms[k], events[k]);
      assert Work(ms[n]) < Work(ms[k]) <= Work(ms[0]) - k;
    }
  }

  // ----- What a jam is made of --------------------------------------------------------------

  /** The store of b is outside, and more stores come before and with it than the store queue has places. */
  predicate Crowded(c: LoadStore.Core, b: nat) {
    && c.head <= b < |c.entry| && c.entry[b].store != 0 && !c.entry[b].inQueue
    && StoreCount(c.entry, c.head, b + 1) > SQ_SIZE
  }

  /** A load of b has not entered, though its registers are or can become ready. */
  ghost predicate Held(m: Machine, b: nat) {
    && m.mem.head <= b < |m.mem.entry| && b < |m.regs.entry| && LoadStore.WellFormed(m.mem)
    && KeptOut(m.mem.entry[b]) && CanReady(m, b)
  }

  /** Where the chain of instructions that wait for each other ends, at i or before it. */
  ghost predicate Root(m: Machine, i: nat, b: nat) {
    b <= i && (Crowded(m.mem, b) || Held(m, b))
  }

  /** Every instruction that cannot complete waits, through registers and through stores that are older or awaited, for
      a load that is kept out or for a place in a crowded store queue. */
  lemma {:induction false} CompleteRoot(m: Machine, i: nat) returns (b: nat)
    requires m in Sound() && i < m.regs.next && !CanComplete(m, i)
    ensures Root(m, i, b)
    decreases i, 3
  {
    if m.regs.entry[i].executed == Registers.Completed {
      CompletedCan(m, i);
    }
    InBuffer(m, i);
    assert Agree(m.regs.entry[i], m.mem.entry[i]) && LoadStore.EntryOk(m.mem, i);
    if !CanReady(m, i) {
      b := ReadyRoot(m, i);
    } else if m.mem.entry[i].store != 0 && !CanStore(m, i) {
      b := StoreRoot(m, i);
    } else {
      var j :| 0 <= j < LOADS && m.mem.entry[i].loads[j] != 0 && !CanLoad(m, i, j);
      b := LoadRoot(m, i, j);
    }
  }

  lemma {:induction false} ReadyRoot(m: Machine, i: nat) returns (b: nat)
    requires m in Sound() && i < m.regs.next && !CanReady(m, i)
    ensures Root(m, i, b)
    decreases i, 0
  {
    ReadyMeans(m.regs, i);
    var j :| 0 <= j < SOURCES && m.regs.entry[i].producers[j].Some? &&
      !CanComplete(m, m.regs.entry[i].producers[j].value);
    b := CompleteRoot(m, m.regs.entry[i].producers[j].value);
  }

  lemma {:induction false} StoreRoot(m: Machine, p: nat) returns (b: nat)
    requires m in Sound() && m.mem.head <= p < m.regs.next && m.mem.entry[p].store != 0 && !CanStore(m, p)
    ensures Root(m, p, b)
    decreases p, 1
  {
    if StoreCount(m.mem.entry, m.mem.head, p + 1) > SQ_SIZE {
      b := p;
    } else {
      var k: nat :| m.mem.head <= k <= p && m.mem.entry[k].store != 0 && !m.mem.entry[k].inQueue && !CanReady(m, k);
      b := ReadyRoot(m, k);
    }
  }

  lemma {:induction false} LoadRoot(m: Machine, i: nat, j: nat) returns (b: nat)
    requires m in Sound() && m.mem.head <= i < m.regs.next && j < LOADS && m.mem.entry[i].loads[j] != 0
    requires CanReady(m, i) && !CanLoad(m, i, j)
    ensures Root(m, i, b)
    decreases i, 2
  {
    assert LoadStore.LoadOk(m.mem, i, j);
    match m.mem.entry[i].state[j]
    case Outside =>
      assert !LoadIn(m.mem.entry[i], j);
      b := i;
    case Waiting(p) => b := StoreRoot(m, p);
  }

  /** Every load in the queue of a jammed core waits for an older store that has not entered, and that store waits for a
      load that is kept out or for a place in a crowded store queue. */
  lemma JammedLoad(m: Machine, i: nat, j: nat) returns (b: nat)
    requires Attained(m) && Jammed(m) && LoadQueues.Live(m.mem, i, j)
    ensures var s := m.mem.entry[i].state[j];
      s.Waiting? && s.store < i && !m.mem.entry[s.store].inQueue && Root(m, s.store, b)
  {
    AttainedSound(m);
    assert LoadStore.LoadOk(m.mem, i, j);
    LiveScheduled(m, i, j);
    b := StoreRoot(m, m.mem.entry[i].state[j].store);
  }
}
