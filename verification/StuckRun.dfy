/** A run of the whole core that gets stuck.

    A load misses (0); an instruction computes an address from it (1), from which a second load reads (2); its value is
    what a store writes (3); and then many loads follow of the address stored to.  They fill the load queue while
    the second load waits for its address, and then wait for the store, which waits for the second load. */
module StuckRun {
  import opened Common
  import opened CoreConfig
  import opened Occupancy
  import opened WholeCore
  import opened CoreProgress
  import Registers
  import LoadStore
  import LoadQueues

  // ----- The instructions -------------------------------------------------------------------

  const NONE: seq<nat> := [0, 0, 0, 0]
  const OUT: seq<LoadStore.LoadState> :=
    [LoadStore.Outside, LoadStore.Outside, LoadStore.Outside, LoadStore.Outside]

  /** The first instruction with a link is linked to the one before it. */
  function Linked(p: nat): seq<Option<nat>> {
    [Some(p), None, None, None]
  }

  function FirstLoad(executed: Registers.Status): Registers.Entry {
    Registers.Entry(NONE, [1], true, Registers.Completed, executed, true, 0, Registers.NO_LINKS)
  }

  const ADDRESS: Registers.Entry :=
    Registers.Entry([1, 0, 0, 0], [2], false, Registers.Completed, Registers.Idle, false, 1, Linked(0))
  const SECOND_LOAD: Registers.Entry :=
    Registers.Entry([2, 0, 0, 0], [3], true, Registers.Inflight, Registers.Idle, false, 1, Linked(1))
  const THE_STORE: Registers.Entry :=
    Registers.Entry([3, 0, 0, 0], [0], true, Registers.Inflight, Registers.Idle, false, 1, Linked(2))

  /** An instruction with four loads, before and after it has started. */
  function Reader(started: bool): Registers.Entry {
    Registers.Entry(NONE, [0], true, if started then Registers.Completed else Registers.Inflight,
                    if started then Registers.Inflight else Registers.Idle, true, 0, Registers.NO_LINKS)
  }

  function Missing(state: LoadStore.LoadState, pending: nat): LoadStore.Entry {
    LoadStore.Entry([8, 0, 0, 0], 0, OUT[0 := state], false, false, {}, pending, false)
  }

  const NO_MEMORY: LoadStore.Entry := LoadStore.Entry(NONE, 0, OUT, false, false, {}, 0, false)
  const KEPT_OUT: LoadStore.Entry := LoadStore.Entry([9, 0, 0, 0], 0, OUT, false, false, {}, 1, false)

  function Writing(dependents: set<nat>): LoadStore.Entry {
    LoadStore.Entry(NONE, 7, OUT, false, false, dependents, 1, false)
  }

  function ReadState(entered: bool): LoadStore.LoadState {
    if entered then LoadStore.Waiting(3) else LoadStore.Outside
  }

  /** Its first n loads have entered. */
  function Reading(n: nat): LoadStore.Entry {
    LoadStore.Entry([7, 7, 7, 7], 0, [ReadState(0 < n), ReadState(1 < n), ReadState(2 < n), ReadState(3 < n)],
                    false, false, {}, 4, false)
  }

  // ----- The first four ---------------------------------------------------------------------

  const FRONT: seq<Registers.Entry> := [FirstLoad(Registers.Inflight), ADDRESS, SECOND_LOAD, THE_STORE]

  lemma NoLinks(c: Registers.Core)
    requires Registers.WellFormed(c) && c.next < |c.entry| && c.entry[c.next].sources == NONE
    ensures Registers.Links(c.entry, c.head, c.next) == Registers.NO_LINKS
  {}

  /** A source with the instruction before as its producer. */
  lemma OneLink(c: Registers.Core)
    requires Registers.WellFormed(c) && c.head < c.next < |c.entry|
    requires var s := c.entry[c.next].sources; s == [s[0], 0, 0, 0] && s[0] != 0 && s[0] in c.entry[c.next - 1].dests
    requires c.entry[c.next - 1].executed != Registers.Completed
    ensures Registers.Links(c.entry, c.head, c.next) == Linked(c.next - 1)
  {}

  function Fresh(sources: seq<nat>, dest: nat, memory: bool): Registers.Entry {
    Registers.Entry(sources, [dest], memory, Registers.Idle, Registers.Idle, false, 0, Registers.NO_LINKS)
  }

  /** One instruction is dispatched and scheduled. */
  lemma Enter(m: Machine, sources: seq<nat>, dest: nat, loads: seq<nat>, store: nat) returns (m': Machine)
    requires Attained(m) && m.regs.next == |m.regs.entry| == |m.mem.entry| && |sources| == SOURCES && |loads| == LOADS
    requires m.regs.head == m.mem.head <= m.regs.next && InReach(m.regs.head, m.regs.next)
    requires Registers.WellFormed(m.regs) && LoadStore.WellFormed(m.mem)
    ensures Attained(m')
    ensures var c := Registers.Dispatch(m.regs, sources, [dest], IsMemory(loads, store));
      && Registers.WellFormed(c) && m'.regs == Registers.Schedule(c)
      && m'.mem == LoadStore.Dispatch(m.mem, loads, store)
  {
    var e := DispatchOne(sources, [dest], loads, store);
    AttainedStep(m, e);
    var m1 := Step(m, e);
    AttainedStep(m1, ScheduleOne);
    m' := Step(m1, ScheduleOne);
  }

  /** The first load, before it starts. */
  const WAITING: Registers.Entry :=
    Registers.Entry(NONE, [1], true, Registers.Inflight, Registers.Idle, true, 0, Registers.NO_LINKS)

  lemma OneEntered() returns (m: Machine)
    ensures Attained(m) && m.regs == Registers.Core([WAITING], 0, 1, [], [], multiset{})
    ensures m.mem == LoadStore.Core([Missing(LoadStore.Outside, 1)], 0)
  {
    AttainedBoot();
    m := Enter(BOOT, NONE, 1, [8, 0, 0, 0], 0);
    NoLinks(Registers.Dispatch(Registers.BOOT, NONE, [1], true));
    assert OUT[0 := LoadStore.Outside] == OUT;
  }

  lemma TwoEntered() returns (m: Machine)
    ensures Attained(m) && m.regs == Registers.Core([WAITING, ADDRESS], 0, 2, [], [], multiset{})
    ensures m.mem == LoadStore.Core([Missing(LoadStore.Outside, 1), NO_MEMORY], 0)
  {
    var m0 := OneEntered();
    m := Enter(m0, [1, 0, 0, 0], 2, NONE, 0);
    OneLink(Registers.Dispatch(m0.regs, [1, 0, 0, 0], [2], false));
  }

  lemma ThreeEntered() returns (m: Machine)
    ensures Attained(m) && m.regs == Registers.Core([WAITING, ADDRESS, SECOND_LOAD], 0, 3, [], [], multiset{})
    ensures m.mem == LoadStore.Core([Missing(LoadStore.Outside, 1), NO_MEMORY, KEPT_OUT], 0)
  {
    var m0 := TwoEntered();
    m := Enter(m0, [2, 0, 0, 0], 3, [9, 0, 0, 0], 0);
    OneLink(Registers.Dispatch(m0.regs, [2, 0, 0, 0], [3], true));
  }

  lemma FourEntered() returns (m: Machine)
    ensures Attained(m)
    ensures m.regs == Registers.Core([WAITING, ADDRESS, SECOND_LOAD, THE_STORE], 0, 4, [], [], multiset{})
    ensures m.mem == LoadStore.Core([Missing(LoadStore.Outside, 1), NO_MEMORY, KEPT_OUT, Writing({})], 0)
  {
    var m0 := ThreeEntered();
    m := Enter(m0, [3, 0, 0, 0], 0, NONE, 7);
    OneLink(Registers.Dispatch(m0.regs, [3, 0, 0, 0], [0], true));
  }

  /** The first four are in the buffer, and the first load is at the cache. */
  lemma FirstStarts() returns (m: Machine)
    ensures Attained(m) && m.regs == Registers.Core(FRONT, 0, 4, [], [], multiset{})
    ensures m.mem == LoadStore.Core([Missing(LoadStore.Sent, 1), NO_MEMORY, KEPT_OUT, Writing({})], 0)
  {
    var m0 := FirstEnters();
    AttainedStep(m0, StartMemory(0));
    m := Step(m0, StartMemory(0));
  }

  lemma FirstEnters() returns (m: Machine)
    ensures Attained(m)
    ensures m.regs == Registers.Core([WAITING, ADDRESS, SECOND_LOAD, THE_STORE], 0, 4, [], [], multiset{})
    ensures m.mem == LoadStore.Core([Missing(LoadStore.Sent, 1), NO_MEMORY, KEPT_OUT, Writing({})], 0)
  {
    var m0 := FourEntered();
    assert LoadsHeld(m0.mem) == {};
    AttainedStep(m0, LoadEnters(0, 0));
    m := Step(m0, LoadEnters(0, 0));
    assert m.mem.entry[0] == Missing(LoadStore.Sent, 1);
  }

  // ----- The readers ------------------------------------------------------------------------

  /** The first four as they are until the first load returns, with n readers behind whose loads have entered. */
  ghost predicate Filling(m: Machine, n: nat) {
    && Registers.WellFormed(m.regs) && LoadStore.WellFormed(m.mem)
    && m.regs.head == 0 == m.mem.head && m.regs.rte0 == [] == m.regs.rte1 && m.regs.entered == multiset{}
    && |m.regs.entry| == |m.mem.entry| == m.regs.next >= 4 + n
    && m.regs.entry[..4] == FRONT
    && m.mem.entry[..3] == [Missing(LoadStore.Sent, 1), NO_MEMORY, KEPT_OUT]
    && m.mem.entry[3] == Writing(m.mem.entry[3].dependents)
    && forall k :: 4 <= k < 4 + n ==> m.regs.entry[k] == Reader(true) && m.mem.entry[k] == Reading(LOADS)
  }

  /** One more reader behind, j of whose loads have entered. */
  ghost predicate Partly(m: Machine, n: nat, j: nat) {
    && Filling(m, n) && m.regs.next == 5 + n
    && m.regs.entry[4 + n] == Reader(false) && m.mem.entry[4 + n] == Reading(j)
  }

  lemma ReaderEnters(m: Machine, n: nat) returns (m': Machine)
    requires Attained(m) && Filling(m, n) && m.regs.next == 4 + n < SCHEDULER_SIZE
    ensures Attained(m') && Partly(m', n, 0)
  {
    m' := Enter(m, NONE, 0, [7, 7, 7, 7], 0);
    NoLinks(Registers.Dispatch(m.regs, NONE, [0], true));
  }

  lemma LiveIs(m: Machine, n: nat, j: nat, i: nat, l: nat)
    requires Partly(m, n, j) && j < LOADS && l < LOADS
    ensures LoadQueues.Live(m.mem, i, l) <==>
      (i == 0 && l == 0) || (4 <= i < 4 + n) || (i == 4 + n && l < j)
  {
    if i < 4 {
      assert i < 3 ==> m.mem.entry[i] == m.mem.entry[..3][i];
    }
  }

  /** The loads that hold a slot: the first one, and those of the readers. */
  lemma FillingCount(m: Machine, n: nat, j: nat)
    requires Partly(m, n, j) && j < LOADS
    ensures |LoadsHeld(m.mem)| == 1 + LOADS * n + j
  {
    var low, held := LOADS * 4, LoadsHeld(m.mem);
    var high := low + LOADS * n + j;
    forall x: nat ensures x in held <==> x == 0 || low <= x < high {
      LiveIs(m, n, j, x / LOADS, x % LOADS);
    }
    assert held == {0} + (held - {0});
    IntervalSize(held - {0}, low, high);
  }

  /** None but this reader may operate and has a load outside. */
  lemma ReaderFirst(m: Machine, n: nat, j: nat)
    requires Partly(m, n, j) && j < LOADS
    ensures First(m, 4 + n, j) && MayOperate(m.regs, 4 + n)
    ensures forall k :: 0 <= k < 4 + n ==> !MayOperate(m.regs, k)
  {
    forall k | 0 <= k < 4 + n ensures !MayOperate(m.regs, k) {
      if k < 4 {
        assert m.regs.entry[k] == m.regs.entry[..4][k];
      }
    }
  }

  lemma ReaderBinds(c: LoadStore.Core, i: nat, j: nat)
    requires LoadStore.WellFormed(c) && c.head == 0 && 4 <= i < |c.entry| && j < LOADS && c.entry[i] == Reading(j)
    requires c.entry[3] == Writing(c.entry[3].dependents)
    requires forall k :: 4 <= k < i ==> c.entry[k] == Reading(LOADS)
    ensures LoadStore.AddLoad(c, i, j).entry ==
      c.entry[3 := Writing(c.entry[3].dependents + {i})][i := Reading(j + 1)]
  {
    LoadStore.YoungestIs(c.entry, 0, 3, i);
    assert c.entry[i].loads[j] == 7;
    assert Reading(j).state[j := LoadStore.Waiting(3)] == Reading(j + 1).state;
    assert LoadStore.Bound(c.entry, Some(3), i) == c.entry[3 := Writing(c.entry[3].dependents + {i})];
  }

  lemma LoadBinds(m: Machine, n: nat, j: nat) returns (m': Machine)
    requires Attained(m) && Partly(m, n, j) && j < LOADS && 1 + LOADS * n + j < LQ_SIZE
    ensures Attained(m') && Partly(m', n, j + 1)
  {
    var e := LoadEnters(4 + n, j);
    FillingCount(m, n, j);
    ReaderFirst(m, n, j);
    AttainedStep(m, e);
    m' := Step(m, e);
    ReaderBinds(m.mem, 4 + n, j);
  }

  lemma ReaderStarts(m: Machine, n: nat) returns (m': Machine)
    requires Attained(m) && Partly(m, n, LOADS)
    ensures Attained(m') && Filling(m', n + 1) && m'.regs.next == 5 + n
  {
    AttainedStep(m, StartMemory(4 + n));
    m' := Step(m, StartMemory(4 + n));
  }

  lemma OneMore(m: Machine, n: nat) returns (m': Machine)
    requires Attained(m) && Filling(m, n) && m.regs.next == 4 + n && LOADS * (n + 1) < LQ_SIZE
    ensures Attained(m') && Filling(m', n + 1) && m'.regs.next == 5 + n
  {
    m' := ReaderEnters(m, n);
    m' := LoadBinds(m', n, 0);
    m' := LoadBinds(m', n, 1);
    m' := LoadBinds(m', n, 2);
    m' := LoadBinds(m', n, 3);
    m' := ReaderStarts(m', n);
  }

  lemma {:induction false} Fill(n: nat) returns (m: Machine)
    requires LOADS * n < LQ_SIZE
    ensures Attained(m) && Filling(m, n) && m.regs.next == 4 + n
  {
    if n == 0 {
      m := FirstStarts();
    } else {
      var k := n - 1;
      m := Fill(k);
      m := OneMore(m, k);
    }
  }

  // ----- The first load returns, and the last slot is taken ---------------------------------

  const READERS: nat := LQ_SIZE / LOADS

  /** All the readers are in the buffer, and one load of the last is still outside: the load queue is full. */
  lemma AllButOne() returns (m: Machine)
    ensures Attained(m) && Partly(m, READERS - 1, 3)
  {
    var n := READERS - 1;
    m := Fill(n);
    m := ReaderEnters(m, n);
    m := LoadBinds(m, n, 0);
    m := LoadBinds(m, n, 1);
    m := LoadBinds(m, n, 2);
  }

  const SERVED: LoadStore.Entry := Missing(LoadStore.Released(None), 0)

  /** All readers have started.  The first `head` instructions have retired, and the first `done` have completed. */
  ghost predicate Full(m: Machine, head: nat, done: nat, front: seq<Registers.Entry>, rte0: seq<nat>) {
    && Registers.WellFormed(m.regs) && LoadStore.WellFormed(m.mem)
    && m.regs.head == head == m.mem.head && |m.regs.entry| == |m.mem.entry| == m.regs.next == 4 + READERS
    && |front| == 4 && m.regs.entry[..4] == front && m.regs.rte0 == rte0
    && m.mem.entry[0] == SERVED.(completed := 0 < done) && m.mem.entry[1] == NO_MEMORY.(completed := 1 < done)
    && m.mem.entry[2] == KEPT_OUT && m.mem.entry[3] == Writing(m.mem.entry[3].dependents)
    && forall k :: 4 <= k < 4 + READERS ==> m.regs.entry[k] == Reader(true) && m.mem.entry[k] == Reading(LOADS)
  }

  /** The first load has returned, and j loads of the last reader have entered. */
  ghost predicate Almost(m: Machine, j: nat) {
    && Registers.WellFormed(m.regs) && LoadStore.WellFormed(m.mem)
    && m.regs.head == 0 == m.mem.head && |m.regs.entry| == |m.mem.entry| == m.regs.next == 4 + READERS
    && m.regs.entry[..4] == FRONT && m.regs.rte0 == []
    && m.mem.entry[0] == SERVED && m.mem.entry[1] == NO_MEMORY && m.mem.entry[2] == KEPT_OUT
    && m.mem.entry[3] == Writing(m.mem.entry[3].dependents)
    && (forall k :: 4 <= k < 3 + READERS ==> m.regs.entry[k] == Reader(true) && m.mem.entry[k] == Reading(LOADS))
    && m.regs.entry[3 + READERS] == Reader(false) && m.mem.entry[3 + READERS] == Reading(j)
  }

  lemma FirstReturns() returns (m: Machine)
    ensures Attained(m) && Almost(m, 3) && |LoadsHeld(m.mem)| < LQ_SIZE && First(m, 3 + READERS, 3)
  {
    var m0 := AllButOne();
    assert m0.mem.entry[0] == m0.mem.entry[..3][0] && m0.mem.entry[1] == m0.mem.entry[..3][1];
    assert m0.mem.entry[2] == m0.mem.entry[..3][2];
    AttainedStep(m0, CacheAnswers(0, 0));
    m := Step(m0, CacheAnswers(0, 0));
    assert OUT[0 := LoadStore.Sent][0 := LoadStore.Released(None)] == OUT[0 := LoadStore.Released(None)];
    assert m.mem.entry == m0.mem.entry[0 := SERVED];
    SlotFree(m0, m);
  }

  /** The last load of the readers takes the slot of the first load. */
  lemma SlotTaken() returns (m: Machine)
    ensures Attained(m) && Full(m, 0, 0, FRONT, [])
  {
    var i := 3 + READERS;
    var m1 := FirstReturns();
    AttainedStep(m1, LoadEnters(i, 3));
    var m2 := Step(m1, LoadEnters(i, 3));
    ReaderBinds(m1.mem, i, 3);
    assert Almost(m2, 4);
    m := LastStarts(m2);
  }

  lemma LastStarts(m: Machine) returns (m': Machine)
    requires Attained(m) && Almost(m, 4)
    ensures Attained(m') && Full(m', 0, 0, FRONT, [])
  {
    AttainedStep(m, StartMemory(3 + READERS));
    m' := Step(m, StartMemory(3 + READERS));
  }

  lemma SlotFree(m: Machine, m': Machine)
    requires Partly(m, READERS - 1, 3) && m'.regs == m.regs && m'.mem.head == m.mem.head
    requires m'.mem.entry == m.mem.entry[0 := SERVED]
    ensures |LoadsHeld(m'.mem)| < LQ_SIZE && First(m', 3 + READERS, 3)
  {
    var n := READERS - 1;
    FillingCount(m, n, 3);
    ReaderFirst(m, n, 3);
    LiveIs(m, n, 3, 0, 0);
    FewerHeld(m.mem, m'.mem);
  }

  lemma FewerHeld(c: LoadStore.Core, c': LoadStore.Core)
    requires c.entry != [] && c'.head == c.head && c'.entry == c.entry[0 := SERVED] && LoadQueues.Live(c, 0, 0)
    ensures |LoadsHeld(c')| < |LoadsHeld(c)|
  {
    forall x | x in LoadsHeld(c') ensures x in LoadsHeld(c) && x != 0 {
      StillLive(c, c', x / LOADS, x % LOADS);
    }
    SubsetSize(LoadsHeld(c'), LoadsHeld(c) - {0});
  }

  lemma StillLive(c: LoadStore.Core, c': LoadStore.Core, i: nat, j: nat)
    requires c.entry != [] && c'.head == c.head && c'.entry == c.entry[0 := SERVED] && LoadQueues.Live(c', i, j)
    requires LoadStore.WellFormed(c)
    ensures LoadQueues.Live(c, i, j) && i != 0
  {}

  // ----- The address is computed, too late --------------------------------------------------

  function Computing(executed: Registers.Status): Registers.Entry {
    Registers.Entry([1, 0, 0, 0], [2], false, Registers.Completed, executed, true, 0, Linked(0))
  }

  const SECOND_READY: Registers.Entry :=
    Registers.Entry([2, 0, 0, 0], [3], true, Registers.Inflight, Registers.Idle, true, 0, Linked(1))

  lemma ReleaseOne(c: Registers.Core, p: nat, i: nat)
    requires Registers.WellFormed(c) && i < |c.entry| && c.entry[i].producers == Linked(p)
    ensures Registers.ReleaseAll(c, p, [i]) == Registers.ReleaseLink(c, i)
  {
    var c' := Registers.ReleaseLink(c, i);
    assert c'.entry[i].producers == Linked(p);
    assert Registers.ReleaseFrom(c', p, i, 4) == c';
    assert Registers.ReleaseFrom(c', p, i, 3) == c';
    assert Registers.ReleaseFrom(c', p, i, 2) == c';
    assert Registers.ReleaseFrom(c', p, i, 1) == c';
    assert Registers.ReleaseFrom(c, p, i, 0) == c';
    assert [i][1..] == [];
  }

  /** Only the next instruction depends on one of the first. */
  lemma OnlyNext(m: Machine, head: nat, done: nat, front: seq<Registers.Entry>, rte0: seq<nat>, p: nat)
    requires Full(m, head, done, front, rte0) && p < 3
    requires forall i :: 0 <= i < 4 ==> front[i].producers == if i == 0 then Registers.NO_LINKS else Linked(i - 1)
    ensures Registers.Lists(m.regs, p, [p + 1])
  {
    forall i: nat | Registers.DependsOn(m.regs, i, p) ensures i == p + 1 {
      if i < 4 {
        assert m.regs.entry[i] == m.regs.entry[..4][i];
      }
    }
  }

  /** An instruction after its only link has been released. */
  function Released(e: Registers.Entry): Registers.Entry {
    e.(waits := 0, ready := true, scheduled := if e.memory then Registers.Inflight else Registers.Completed)
  }

  /** The oldest instruction completes, and the next becomes ready. */
  lemma OldestCompletes(m: Machine, p: nat, front: seq<Registers.Entry>) returns (m': Machine)
    requires Attained(m) && p < 2 && Full(m, p, p, front, []) && front[p].executed == Registers.Inflight
    requires forall i :: 0 <= i < 4 ==> front[i].producers == if i == 0 then Registers.NO_LINKS else Linked(i - 1)
    requires front[p + 1].waits == 1
    ensures Attained(m')
    ensures Full(m', p, p + 1, front[p := front[p].(executed := Registers.Completed)][p + 1 := Released(front[p + 1])],
                 if front[p + 1].memory then [] else [p + 1])
  {
    var e := CompleteOne(p, [p + 1]);
    MayComplete(m, p, front);
    AttainedStep(m, e);
    m' := Step(m, e);
    CompletedFull(m, m', p, front);
  }

  lemma MayComplete(m: Machine, p: nat, front: seq<Registers.Entry>)
    requires p < 2 && Full(m, p, p, front, []) && front[p].executed == Registers.Inflight
    requires forall i :: 0 <= i < 4 ==> front[i].producers == if i == 0 then Registers.NO_LINKS else Linked(i - 1)
    ensures Possible(m, CompleteOne(p, [p + 1]))
  {
    assert m.regs.entry[p] == m.regs.entry[..4][p];
    OnlyNext(m, p, p, front, [], p);
  }

  lemma CompletedFull(m: Machine, m': Machine, p: nat, front: seq<Registers.Entry>)
    requires p < 2 && Full(m, p, p, front, []) && front[p + 1].producers == Linked(p) && front[p + 1].waits == 1
    requires m'.regs == Registers.Complete(m.regs, p, [p + 1]) && m'.mem == LoadStore.Complete(m.mem, p)
    ensures Full(m', p, p + 1, front[p := front[p].(executed := Registers.Completed)][p + 1 := Released(front[p + 1])],
                 if front[p + 1].memory then [] else [p + 1])
  {
    var c := m.regs;
    assert c.entry[p] == c.entry[..4][p] && c.entry[p + 1] == c.entry[..4][p + 1];
    CompletedRegs(c, p);
  }

  lemma CompletedRegs(c: Registers.Core, p: nat)
    requires Registers.WellFormed(c) && p + 1 < |c.entry| && c.entry[p + 1].producers == Linked(p)
    requires c.entry[p + 1].waits == 1
    ensures Registers.Complete(c, p, [p + 1]).entry ==
      c.entry[p := c.entry[p].(executed := Registers.Completed)][p + 1 := Released(c.entry[p + 1])]
    ensures Registers.Complete(c, p, [p + 1]).rte0 == if c.entry[p + 1].memory then c.rte0 else c.rte0 + [p + 1]
    ensures Registers.Complete(c, p, [p + 1]).head == c.head && Registers.Complete(c, p, [p + 1]).next == c.next
  {
    ReleaseOne(Registers.MarkCompleted(c, p), p, p + 1);
  }

  lemma OldestRetires(m: Machine, p: nat, front: seq<Registers.Entry>, rte0: seq<nat>) returns (m': Machine)
    requires Attained(m) && p < 2 && Full(m, p, p + 1, front, rte0) && front[p].executed == Registers.Completed
    ensures Attained(m') && Full(m', p + 1, p + 1, front, rte0)
  {
    assert m.regs.entry[p] == m.regs.entry[..4][p];
    AttainedStep(m, RetireOne);
    m' := Step(m, RetireOne);
  }

  /** The address is being computed. */
  lemma Computes(m: Machine, front: seq<Registers.Entry>) returns (m': Machine)
    requires Attained(m) && Full(m, 1, 1, front, [1]) && front[1] == Computing(Registers.Idle)
    ensures Attained(m') && Full(m', 1, 1, front[1 := Computing(Registers.Inflight)], [])
  {
    assert m.regs.entry[1] == m.regs.entry[..4][1];
    AttainedStep(m, ExecuteOne(true));
    m' := Step(m, ExecuteOne(true));
  }

  /** The first load completes and retires, the address is computed and its instruction retires: now the second load
      is ready, and oldest. */
  lemma AddressComputed() returns (m: Machine)
    ensures Attained(m)
    ensures Full(m, 2, 2, [FirstLoad(Registers.Completed), Computing(Registers.Completed), SECOND_READY, THE_STORE], [])
  {
    m := SlotTaken();
    m := OldestCompletes(m, 0, FRONT);
    var front := [FirstLoad(Registers.Completed), Computing(Registers.Idle), SECOND_LOAD, THE_STORE];
    assert FRONT[0 := FRONT[0].(executed := Registers.Completed)][1 := Released(FRONT[1])] == front;
    m := OldestRetires(m, 0, front, [1]);
    m := Computes(m, front);
    front := front[1 := Computing(Registers.Inflight)];
    m := OldestCompletes(m, 1, front);
    front := front[1 := front[1].(executed := Registers.Completed)][2 := Released(front[2])];
    m := OldestRetires(m, 1, front, []);
    assert front == [FirstLoad(Registers.Completed), Computing(Registers.Completed), SECOND_READY, THE_STORE];
  }

  // ----- Stuck ------------------------------------------------------------------------------

  lemma FullCount(m: Machine, front: seq<Registers.Entry>)
    requires Full(m, 2, 2, front, [])
    ensures |LoadsHeld(m.mem)| == LQ_SIZE
    ensures forall i: nat, j: nat :: LoadQueues.Live(m.mem, i, j) ==> m.mem.entry[i].state[j] == LoadStore.Waiting(3)
    ensures StoresHeld(m.mem) == {}
  {
    forall i: nat, j: nat | LoadQueues.Live(m.mem, i, j)
      ensures m.mem.entry[i].state[j] == LoadStore.Waiting(3)
    {
      assert i >= 4 || i == 2 || i == 3;
    }
    forall x: nat ensures x in LoadsHeld(m.mem) <==> LOADS * 4 <= x < LOADS * (4 + READERS) {
      assert x / LOADS == 2 ==> m.mem.entry[x / LOADS].state[x % LOADS] == LoadStore.Outside;
    }
    IntervalSize(LoadsHeld(m.mem), LOADS * 4, LOADS * (4 + READERS));
  }

  /** The run gets stuck, with an empty store queue: the oldest instruction is a ready load that will never enter. */
  lemma GetsStuck() returns (m: Machine)
    ensures Attained(m) && m.mem.head < |m.mem.entry| && Doomed(m)
    ensures StoresHeld(m.mem) == {} && m.mem.head < |m.regs.entry| && m.regs.entry[m.mem.head].ready
  {
    m := AddressComputed();
    FullCount(m, m.regs.entry[..4]);
    assert m.regs.entry[2] == m.regs.entry[..4][2] && m.regs.entry[3] == m.regs.entry[..4][3];
    assert !LoadIn(m.mem.entry[2], 0);
    assert !CanLoad(m, 2, 0) && !CanComplete(m, 2);
    assert m.regs.entry[3].producers[0] == Some(2);
    assert !CanReady(m, 3);
    assert !CanStore(m, 3);
    DoomedExactly(m);
  }
}
