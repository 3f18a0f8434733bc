/** The load queue, the store queue and store-to-load forwarding as the program runs them: on the circular
    reorder buffer, an array of load queue slots and a circular store queue.

    Every method is proved to be one step of the state machine of module LoadStore, so everything proved
    there of every run holds of this structure. */
module LoadQueues {
  import opened Common
  import opened CoreConfig
  import opened LoadStore

  const LQ_SIZE: nat := 128
  const SQ_SIZE: nat := 72

  // ----- What the slots hold ----------------------------------------------------------------

  /** A reorder buffer slot, as far as memory operations go.  `added` and `lq` say of each load whether it has
      entered the load queue and where; `queued` and `sq` the same of the store; `dependents` are slots. */
  datatype MemSlot = MemSlot(id: nat, loads: seq<nat>, store: nat, added: seq<bool>, lq: seq<nat>, queued: bool,
                             sq: nat, dependents: set<nat>, ops: int, completed: bool)

  /** A load queue slot; address 0 marks a free one. */
  datatype LqEntry = LqEntry(address: nat, id: nat, rob: nat, index: nat, producer: Option<nat>)

  datatype SqEntry = SqEntry(address: nat, id: nat, rob: nat, executed: bool)

  const EMPTY_SLOT: MemSlot :=
    MemSlot(0, [0, 0, 0, 0], 0, [false, false, false, false], [0, 0, 0, 0], false, 0, {}, 0, false)
  const EMPTY_LOAD: LqEntry := LqEntry(0, 0, 0, 0, None)
  const EMPTY_STORE: SqEntry := SqEntry(0, 0, 0, false)

  /** The arrays and indices, and the instructions whose stores are in the store queue, oldest first. */
  datatype View = View(r: seq<MemSlot>, l: seq<LqEntry>, q: seq<SqEntry>, head: nat, tail: nat, occupancy: nat,
                       loads: int, sqHead: nat, sqTail: nat, stores: int, queue: seq<nat>)

  // ----- Which state they show --------------------------------------------------------------

  ghost predicate InWindow(c: Core, i: nat) {
    c.head <= i < |c.entry|
  }

  ghost predicate SlotOk(m: MemSlot, c: Core, i: nat)
    requires WellFormed(c) && i < |c.entry|
  {
    var e := c.entry[i];
    && m.id == i && m.loads == e.loads && m.store == e.store && |m.lq| == LOADS == |m.added|
    && (forall j :: 0 <= j < LOADS ==> (m.added[j] <==> e.state[j] != Outside))
    && m.queued == e.inQueue && m.ops == e.pending && m.completed == e.completed
    && (forall k :: k in e.dependents ==> Slot(k) in m.dependents)
    && (forall x :: x in m.dependents ==> x < ROB_SIZE && InstrAt(c.head, x) in e.dependents)
  }

  /** The load has a slot in the load queue. */
  ghost predicate Live(c: Core, i: nat, j: nat) {
    && WellFormed(c) && InWindow(c, i) && j < LOADS && c.entry[i].loads[j] != 0
    && (c.entry[i].state[j].Waiting? || c.entry[i].state[j].Sent?)
  }

  /** What is in that slot. */
  ghost function Image(c: Core, i: nat, j: nat): LqEntry
    requires Live(c, i, j)
  {
    var state := c.entry[i].state[j];
    LqEntry(c.entry[i].loads[j], i, Slot(i), j, if state.Waiting? then Some(state.store) else None)
  }

  ghost predicate LoadAt(r: seq<MemSlot>, l: seq<LqEntry>, c: Core, i: nat, j: nat)
    requires |r| == ROB_SIZE && |l| == LQ_SIZE && Live(c, i, j)
  {
    |r[Slot(i)].lq| == LOADS && r[Slot(i)].lq[j] < LQ_SIZE && l[r[Slot(i)].lq[j]] == Image(c, i, j)
  }

  /** A slot in use belongs to the load it names. */
  ghost predicate Owned(r: seq<MemSlot>, l: seq<LqEntry>, c: Core, x: nat)
    requires |r| == ROB_SIZE && |l| == LQ_SIZE && x < LQ_SIZE
  {
    && Live(c, l[x].id, l[x].index)
    && |r[Slot(l[x].id)].lq| == LOADS && r[Slot(l[x].id)].lq[l[x].index] == x
  }

  ghost predicate LoadsOk(r: seq<MemSlot>, l: seq<LqEntry>, c: Core) {
    && |r| == ROB_SIZE && |l| == LQ_SIZE
    && (forall i, j :: Live(c, i, j) ==> LoadAt(r, l, c, i, j))
    && (forall x :: 0 <= x < LQ_SIZE && l[x].address != 0 ==> Owned(r, l, c, x))
    && (forall x :: 0 <= x < LQ_SIZE && l[x].address == 0 ==> l[x] == EMPTY_LOAD)
  }

  /** The slots in use. */
  function Used(l: seq<LqEntry>): set<nat> {
    set x | 0 <= x < |l| && l[x].address != 0
  }

  /** The store of instruction i is at this place of the store queue. */
  ghost predicate StoreIn(r: seq<MemSlot>, q: seq<SqEntry>, at: nat, c: Core, i: nat)
    requires |r| == ROB_SIZE && at < |q|
  {
    && InWindow(c, i) && c.entry[i].store != 0 && c.entry[i].inQueue
    && r[Slot(i)].sq == at && q[at] == SqEntry(c.entry[i].store, i, Slot(i), c.entry[i].done)
  }

  ghost predicate Listed(queue: seq<nat>, c: Core, i: nat) {
    InWindow(c, i) && c.entry[i].inQueue ==> i in queue
  }

  /** The store queue holds the stores that have entered it, in program order. */
  ghost predicate StoresOk(r: seq<MemSlot>, q: seq<SqEntry>, sqHead: nat, queue: seq<nat>, c: Core) {
    && |r| == ROB_SIZE && |q| == SQ_SIZE && sqHead < SQ_SIZE && |queue| <= SQ_SIZE
    && (forall k :: 0 <= k < |queue| ==> StoreIn(r, q, Around(sqHead, k, SQ_SIZE), c, queue[k]))
    && (forall k, l :: 0 <= k < l < |queue| ==> queue[k] < queue[l])
    && (forall i: nat :: Listed(queue, c, i))
    && (forall k :: |queue| <= k < SQ_SIZE ==> q[Around(sqHead, k, SQ_SIZE)] == EMPTY_STORE)
  }

  ghost predicate SlotsOk(r: seq<MemSlot>, c: Core) {
    && WellFormed(c) && c.head <= |c.entry| <= c.head + ROB_SIZE && |r| == ROB_SIZE
    && forall i: nat :: InWindow(c, i) ==> SlotOk(r[Slot(i)], c, i)
  }

  ghost predicate Indexed(v: View, c: Core) {
    && v.head == Slot(c.head) && v.tail == Slot(|c.entry|) && v.occupancy == |c.entry| - c.head
    && v.loads == |Used(v.l)| && v.stores == |v.queue| <= SQ_SIZE
    && v.sqHead < SQ_SIZE && v.sqTail == Around(v.sqHead, |v.queue|, SQ_SIZE)
  }

  /** The states that a view shows. */
  ghost function Shown(v: View): iset<Core> {
    iset c: Core |
    && SlotsOk(v.r, c) && LoadsOk(v.r, v.l, c) && StoresOk(v.r, v.q, v.sqHead, v.queue, c) && Indexed(v, c)
  }

  // ----- States that runs reach -------------------------------------------------------------

  /** A run of module LoadStore leads to this state. */
  ghost predicate Reached(c: Core) {
    exists events, cores :: LeadsTo(events, cores, c)
  }

  ghost predicate LeadsTo(events: seq<Event>, cores: seq<Core>, c: Core) {
    IsRun(events, cores) && cores[|events|] == c
  }

  lemma ReachedBoot()
    ensures Reached(BOOT)
  {
    assert LeadsTo([], [BOOT], BOOT);
  }

  lemma ReachedKeeps(c: Core)
    requires Reached(c)
    ensures Inv(c)
  {
    var events, cores :| LeadsTo(events, cores, c);
    ReachableInv(events, cores, |events|);
  }

  lemma ReachedStep(c: Core, e: Event)
    requires Reached(c) && Enabled(c, e)
    ensures Reached(Step(c, e))
  {
    var events, cores :| LeadsTo(events, cores, c);
    assert LeadsTo(events + [e], cores + [Step(c, e)], Step(c, e));
  }

  // ----- What a step leaves alone -----------------------------------------------------------

  ghost predicate SameLoad(r: seq<MemSlot>, r': seq<MemSlot>, c: Core, c': Core, i: nat, j: nat)
    requires |r| == ROB_SIZE == |r'| && Live(c, i, j) && Live(c', i, j)
  {
    && |r[Slot(i)].lq| == LOADS == |r'[Slot(i)].lq| && r'[Slot(i)].lq[j] == r[Slot(i)].lq[j]
    && Image(c', i, j) == Image(c, i, j)
  }

  /** The load queue shows the new state too if the same loads are live, with the same slots and entries. */
  lemma LoadsSame(r: seq<MemSlot>, r': seq<MemSlot>, l: seq<LqEntry>, c: Core, c': Core)
    requires LoadsOk(r, l, c) && |r'| == ROB_SIZE
    requires forall i, j :: Live(c', i, j) <==> Live(c, i, j)
    requires forall i, j :: Live(c, i, j) ==> SameLoad(r, r', c, c', i, j)
    ensures LoadsOk(r', l, c')
  {
    forall i, j | Live(c', i, j) ensures LoadAt(r', l, c', i, j) {
      assert LoadAt(r, l, c, i, j);
    }
    forall x | 0 <= x < LQ_SIZE && l[x].address != 0 ensures Owned(r', l, c', x) {
      assert Owned(r, l, c, x);
    }
  }

  ghost predicate SameStore(c: Core, c': Core, i: nat)
    requires InWindow(c, i)
  {
    && InWindow(c', i) && c'.entry[i].store == c.entry[i].store
    && c'.entry[i].inQueue == c.entry[i].inQueue && c'.entry[i].done == c.entry[i].done
  }

  /** So does the store queue if the same stores have entered it, and have executed. */
  lemma StoresSame(r: seq<MemSlot>, r': seq<MemSlot>, q: seq<SqEntry>, sqHead: nat, queue: seq<nat>, c: Core, c': Core)
    requires StoresOk(r, q, sqHead, queue, c) && |r'| == ROB_SIZE
    requires forall i: nat :: InWindow(c, i) ==> SameStore(c, c', i) && r'[Slot(i)].sq == r[Slot(i)].sq
    requires forall i: nat :: InWindow(c', i) && !InWindow(c, i) ==> !c'.entry[i].inQueue
    ensures StoresOk(r', q, sqHead, queue, c')
  {
    forall k | 0 <= k < |queue| ensures StoreIn(r', q, Around(sqHead, k, SQ_SIZE), c', queue[k]) {
      assert StoreIn(r, q, Around(sqHead, k, SQ_SIZE), c, queue[k]);
    }
    forall i: nat ensures Listed(queue, c', i) {
      assert Listed(queue, c, i);
    }
  }

  /** One instruction changes, and its slot with it. */
  lemma OneSlot(r: seq<MemSlot>, c: Core, c': Core, i: nat, m: MemSlot)
    requires SlotsOk(r, c) && WellFormed(c') && InWindow(c, i) && c'.head == c.head && |c'.entry| == |c.entry|
    requires forall k :: 0 <= k < |c.entry| && k != i ==> c'.entry[k] == c.entry[k]
    requires SlotOk(m, c', i)
    ensures SlotsOk(r[Slot(i) := m], c')
  {
    forall k: nat | InWindow(c', k) ensures SlotOk(r[Slot(i) := m][Slot(k)], c', k) {
      assert SlotOk(r[Slot(k)], c, k);
      if k != i {
        SlotApart(i, k);
      }
    }
  }

  /** Neither queue notices that instruction i changes otherwise. */
  lemma QueuesSame(v: View, c: Core, c': Core, i: nat, m: MemSlot)
    requires c in Shown(v) && WellFormed(c') && InWindow(c, i) && c'.head == c.head && |c'.entry| == |c.entry|
    requires forall k :: 0 <= k < |c.entry| && k != i ==> c'.entry[k] == c.entry[k]
    requires var e, e' := c.entry[i], c'.entry[i];
      e'.loads == e.loads && e'.state == e.state && e'.store == e.store && e'.inQueue == e.inQueue && e'.done == e.done
    requires m.lq == v.r[Slot(i)].lq && m.sq == v.r[Slot(i)].sq
    ensures LoadsOk(v.r[Slot(i) := m], v.l, c') && StoresOk(v.r[Slot(i) := m], v.q, v.sqHead, v.queue, c')
  {
    var r' := v.r[Slot(i) := m];
    forall a, j ensures Live(c', a, j) <==> Live(c, a, j) {}
    forall a, j | Live(c, a, j) ensures SameLoad(v.r, r', c, c', a, j) {
      assert SlotOk(v.r[Slot(a)], c, a);
    }
    LoadsSame(v.r, r', v.l, c, c');
    StoresSame(v.r, r', v.q, v.sqHead, v.queue, c, c');
  }

  /** When the window and the store queue stay, the parts make up the new view. */
  lemma Assemble(v: View, c: Core, v': View, c': Core)
    requires Indexed(v, c) && c'.head == c.head && |c'.entry| == |c.entry|
    requires v' == v.(r := v'.r, l := v'.l, q := v'.q, loads := v'.loads) && v'.loads == |Used(v'.l)|
    requires SlotsOk(v'.r, c') && LoadsOk(v'.r, v'.l, c') && StoresOk(v'.r, v'.q, v'.sqHead, v'.queue, c')
    ensures c' in Shown(v')
  {}

  // ----- Completion -------------------------------------------------------------------------

  lemma CompleteShown(v: View, c: Core, i: nat)
    requires c in Shown(v) && Reached(c) && InWindow(c, i) && v.r[Slot(i)].ops == 0 && !v.r[Slot(i)].completed
    ensures Reached(Complete(c, i))
    ensures Complete(c, i) in Shown(v.(r := v.r[Slot(i) := v.r[Slot(i)].(completed := true)]))
  {
    var c', m := Complete(c, i), v.r[Slot(i)].(completed := true);
    assert SlotOk(v.r[Slot(i)], c, i);
    ReachedStep(c, CompleteOne(i));
    OneSlot(v.r, c, c', i, m);
    QueuesSame(v, c, c', i, m);
  }

  // ----- Dispatch and retirement ------------------------------------------------------------

  function NewSlot(id: nat, loads: seq<nat>, store: nat): MemSlot
    requires |loads| == LOADS
  {
    MemSlot(id, loads, store, [false, false, false, false], [0, 0, 0, 0], false, 0, {}, Operations(loads, store), false)
  }

  lemma DispatchSlots(r: seq<MemSlot>, c: Core, loads: seq<nat>, store: nat)
    requires SlotsOk(r, c) && |loads| == LOADS && |c.entry| < c.head + ROB_SIZE
    ensures SlotsOk(r[Slot(|c.entry|) := NewSlot(|c.entry|, loads, store)], Dispatch(c, loads, store))
  {
    var n, c' := |c.entry|, Dispatch(c, loads, store);
    forall i: nat | InWindow(c', i) ensures SlotOk(r[Slot(n) := NewSlot(n, loads, store)][Slot(i)], c', i) {
      if i < n {
        assert SlotOk(r[Slot(i)], c, i);
        SlotApart(i, n);
      }
    }
  }

  lemma DispatchQueues(v: View, c: Core, loads: seq<nat>, store: nat)
    requires c in Shown(v) && |loads| == LOADS && |c.entry| < c.head + ROB_SIZE
    ensures var r', c' := v.r[Slot(|c.entry|) := NewSlot(|c.entry|, loads, store)], Dispatch(c, loads, store);
      LoadsOk(r', v.l, c') && StoresOk(r', v.q, v.sqHead, v.queue, c')
  {
    var n, c' := |c.entry|, Dispatch(c, loads, store);
    var r' := v.r[Slot(n) := NewSlot(n, loads, store)];
    forall i: nat | InWindow(c, i) ensures r'[Slot(i)] == v.r[Slot(i)] {
      SlotApart(i, n);
    }
    forall i, j ensures Live(c', i, j) <==> Live(c, i, j) {}
    forall i, j | Live(c, i, j) ensures SameLoad(v.r, r', c, c', i, j) {
      assert SlotOk(v.r[Slot(i)], c, i);
    }
    LoadsSame(v.r, r', v.l, c, c');
    StoresSame(v.r, r', v.q, v.sqHead, v.queue, c, c');
  }

  lemma TailNext(v: View, c: Core)
    requires Indexed(v, c) && c.head <= |c.entry| < c.head + ROB_SIZE
    ensures v.tail == Slot(|c.entry|) && Next(v.tail) == Slot(|c.entry| + 1)
  {}

  lemma DispatchShown(v: View, c: Core, loads: seq<nat>, store: nat)
    requires c in Shown(v) && Reached(c) && |loads| == LOADS && v.occupancy < ROB_SIZE
    ensures Reached(Dispatch(c, loads, store))
    ensures Dispatch(c, loads, store) in
      Shown(v.(r := v.r[v.tail := NewSlot(|c.entry|, loads, store)], tail := Next(v.tail),
               occupancy := v.occupancy + 1))
  {
    ReachedStep(c, DispatchOne(loads, store));
    DispatchSlots(v.r, c, loads, store);
    DispatchQueues(v, c, loads, store);
    TailNext(v, c);
  }

  /** A completed instruction has no live load. */
  lemma CompletedIdle(c: Core, i: nat, j: nat)
    requires Reached(c) && i < |c.entry| && c.entry[i].completed
    ensures !Live(c, i, j)
  {
    ReachedKeeps(c);
    assert EntryOk(c, i);
    if Live(c, i, j) {
      assert LoadOk(c, i, j) && Unfinished(c.entry[i], j);
    }
  }

  lemma RetireSlots(r: seq<MemSlot>, c: Core)
    requires SlotsOk(r, c) && Reached(c) && c.head < |c.entry|
    ensures SlotsOk(r[Slot(c.head) := EMPTY_SLOT], Retire(c))
  {
    ReachedKeeps(c);
    var c' := Retire(c);
    forall i: nat | InWindow(c', i) ensures SlotOk(r[Slot(c.head) := EMPTY_SLOT][Slot(i)], c', i) {
      assert SlotOk(r[Slot(i)], c, i);
      SlotApart(c.head, i);
      forall x | x in r[Slot(i)].dependents ensures InstrAt(c'.head, x) in c.entry[i].dependents {
        assert BoundOk(c, i, InstrAt(c.head, x));
        AtSlot(c'.head, InstrAt(c.head, x));
      }
    }
  }

  lemma RetireLoads(r: seq<MemSlot>, l: seq<LqEntry>, c: Core)
    requires SlotsOk(r, c) && LoadsOk(r, l, c) && Reached(c) && c.head < |c.entry| && c.entry[c.head].completed
    ensures LoadsOk(r[Slot(c.head) := EMPTY_SLOT], l, Retire(c))
  {
    var c', r' := Retire(c), r[Slot(c.head) := EMPTY_SLOT];
    forall i, j ensures Live(c', i, j) <==> Live(c, i, j) {
      CompletedIdle(c, c.head, j);
    }
    forall i, j | Live(c, i, j) ensures SameLoad(r, r', c, c', i, j) {
      SlotApart(c.head, i);
      assert SlotOk(r[Slot(i)], c, i);
    }
    LoadsSame(r, r', l, c, c');
  }

  function NextStore(k: nat): nat {
    if k + 1 == SQ_SIZE then 0 else k + 1
  }

  /** The store of a retiring instruction is at the head of the store queue. */
  lemma HeadStore(r: seq<MemSlot>, q: seq<SqEntry>, sqHead: nat, queue: seq<nat>, c: Core)
    requires StoresOk(r, q, sqHead, queue, c) && c.head < |c.entry| && c.entry[c.head].inQueue
    ensures queue != [] && queue[0] == c.head && r[Slot(c.head)].sq == sqHead
  {
    assert InWindow(c, c.head) && Listed(queue, c, c.head);
    assert StoreIn(r, q, Around(sqHead, 0, SQ_SIZE), c, queue[0]);
    var k :| 0 <= k < |queue| && queue[k] == c.head;
  }

  lemma NextAround(sqHead: nat, k: nat)
    requires sqHead < SQ_SIZE && k < SQ_SIZE
    ensures Around(NextStore(sqHead), k, SQ_SIZE) == if k == SQ_SIZE - 1 then sqHead else Around(sqHead, k + 1, SQ_SIZE)
    ensures Around(sqHead, 0, SQ_SIZE) == sqHead && (k > 0 ==> Around(sqHead, k, SQ_SIZE) != sqHead)
  {}

  lemma PopKeeps(r: seq<MemSlot>, q: seq<SqEntry>, sqHead: nat, queue: seq<nat>, c: Core, k: nat)
    requires StoresOk(r, q, sqHead, queue, c) && c.head < |c.entry| <= c.head + ROB_SIZE && k + 1 < |queue|
    requires c.head < queue[k + 1]
    ensures StoreIn(r[Slot(c.head) := EMPTY_SLOT], q[sqHead := EMPTY_STORE], Around(NextStore(sqHead), k, SQ_SIZE),
                    Retire(c), queue[k + 1])
  {
    assert StoreIn(r, q, Around(sqHead, k + 1, SQ_SIZE), c, queue[k + 1]);
    NextAround(sqHead, k);
    NextAround(sqHead, k + 1);
    SlotApart(c.head, queue[k + 1]);
  }

  lemma RetirePops(r: seq<MemSlot>, q: seq<SqEntry>, sqHead: nat, queue: seq<nat>, c: Core)
    requires StoresOk(r, q, sqHead, queue, c) && c.head < |c.entry| <= c.head + ROB_SIZE && c.entry[c.head].inQueue
    ensures queue != []
    ensures StoresOk(r[Slot(c.head) := EMPTY_SLOT], q[sqHead := EMPTY_STORE], NextStore(sqHead), queue[1..], Retire(c))
  {
    HeadStore(r, q, sqHead, queue, c);
    var q', next, rest := q[sqHead := EMPTY_STORE], NextStore(sqHead), queue[1..];
    forall k | 0 <= k < |rest|
      ensures StoreIn(r[Slot(c.head) := EMPTY_SLOT], q', Around(next, k, SQ_SIZE), Retire(c), rest[k])
    {
      PopKeeps(r, q, sqHead, queue, c, k);
    }
    forall k | |rest| <= k < SQ_SIZE ensures q'[Around(next, k, SQ_SIZE)] == EMPTY_STORE {
      NextAround(sqHead, k);
    }
    forall i: nat ensures Listed(rest, Retire(c), i) {
      assert Listed(queue, c, i);
      if InWindow(Retire(c), i) && c.entry[i].inQueue {
        var k :| 0 <= k < |queue| && queue[k] == i;
        assert rest[k - 1] == i;
      }
    }
  }

  lemma RetireStays(r: seq<MemSlot>, q: seq<SqEntry>, sqHead: nat, queue: seq<nat>, c: Core)
    requires StoresOk(r, q, sqHead, queue, c) && c.head < |c.entry| <= c.head + ROB_SIZE && !c.entry[c.head].inQueue
    ensures StoresOk(r[Slot(c.head) := EMPTY_SLOT], q, sqHead, queue, Retire(c))
  {
    var c', r' := Retire(c), r[Slot(c.head) := EMPTY_SLOT];
    forall k | 0 <= k < |queue| ensures StoreIn(r', q, Around(sqHead, k, SQ_SIZE), c', queue[k]) {
      assert StoreIn(r, q, Around(sqHead, k, SQ_SIZE), c, queue[k]);
      SlotApart(c.head, queue[k]);
    }
    forall i: nat ensures Listed(queue, c', i) {
      assert Listed(queue, c, i);
    }
  }

  /** Retirement of an instruction without a store in the queue. */
  function RetiredOther(v: View): View
    requires v.head < |v.r| && v.occupancy > 0
  {
    v.(r := v.r[v.head := EMPTY_SLOT], head := Next(v.head), occupancy := v.occupancy - 1)
  }

  /** Retirement of an instruction whose store leaves the queue. */
  function RetiredStore(v: View): View
    requires v.head < |v.r| && v.occupancy > 0 && v.sqHead < |v.q| && v.queue != []
  {
    RetiredOther(v).(q := v.q[v.sqHead := EMPTY_STORE], sqHead := NextStore(v.sqHead), stores := v.stores - 1,
                     queue := v.queue[1..])
  }

  lemma RetireIndexed(v: View, c: Core)
    requires Indexed(v, c) && c.head < |c.entry| && v.head < |v.r|
    ensures Indexed(RetiredOther(v), Retire(c))
  {
    SlotUp(c.head);
  }

  lemma StoreIndexed(v: View, c: Core)
    requires Indexed(v, c) && v.head < |v.r| && v.occupancy > 0 && v.sqHead < |v.q| && v.queue != []
    requires Indexed(RetiredOther(v), Retire(c))
    ensures Indexed(RetiredStore(v), Retire(c))
  {
    NextAround(v.sqHead, |v.queue| - 1);
  }

  lemma RetireOtherShown(v: View, c: Core)
    requires c in Shown(v) && Reached(c) && c.head < |c.entry| && c.entry[c.head].completed && !c.entry[c.head].inQueue
    ensures Reached(Retire(c)) && Retire(c) in Shown(RetiredOther(v))
  {
    ReachedStep(c, RetireOne);
    RetireSlots(v.r, c);
    RetireLoads(v.r, v.l, c);
    RetireStays(v.r, v.q, v.sqHead, v.queue, c);
    RetireIndexed(v, c);
  }

  lemma RetireStoreShown(v: View, c: Core)
    requires c in Shown(v) && Reached(c) && c.head < |c.entry| && c.entry[c.head].completed && c.entry[c.head].inQueue
    ensures Reached(Retire(c)) && v.queue != [] && v.r[v.head].sq == v.sqHead && Retire(c) in Shown(RetiredStore(v))
  {
    ReachedStep(c, RetireOne);
    RetireSlots(v.r, c);
    RetireLoads(v.r, v.l, c);
    HeadStore(v.r, v.q, v.sqHead, v.queue, c);
    RetirePops(v.r, v.q, v.sqHead, v.queue, c);
    RetireIndexed(v, c);
    StoreIndexed(v, c);
  }

  /** What the slot at the head says of the oldest instruction. */
  lemma HeadSays(v: View, c: Core)
    requires c in Shown(v) && c.head < |c.entry|
    ensures v.head < ROB_SIZE && v.r[v.head].completed == c.entry[c.head].completed
    ensures v.r[v.head].queued == c.entry[c.head].inQueue
  {
    assert InWindow(c, c.head) && SlotOk(v.r[Slot(c.head)], c, c.head);
  }

  // ----- A store enters the store queue -----------------------------------------------------

  function QueuedSlot(m: MemSlot, at: nat): MemSlot {
    m.(queued := true, sq := at)
  }

  /** The view after the store of instruction i has entered the queue at its tail. */
  function WithStore(v: View, i: nat): View
    requires |v.r| == ROB_SIZE && v.sqTail < |v.q|
  {
    v.(r := v.r[Slot(i) := QueuedSlot(v.r[Slot(i)], v.sqTail)],
       q := v.q[v.sqTail := SqEntry(v.r[Slot(i)].store, i, Slot(i), false)],
       sqTail := NextStore(v.sqTail), stores := v.stores + 1, queue := v.queue + [i])
  }

  /** It may enter: it has not, and those that have are older. */
  ghost predicate MayEnter(c: Core, i: nat) {
    && InWindow(c, i) && c.entry[i].store != 0 && !c.entry[i].inQueue && !c.entry[i].done
    && forall k: nat :: InWindow(c, k) && k > i ==> !c.entry[k].inQueue
  }

  lemma AddStoreStores(r: seq<MemSlot>, q: seq<SqEntry>, sqHead: nat, queue: seq<nat>, c: Core, i: nat)
    requires SlotsOk(r, c) && StoresOk(r, q, sqHead, queue, c) && MayEnter(c, i) && |queue| < SQ_SIZE
    ensures var at := Around(sqHead, |queue|, SQ_SIZE);
      && q[at] == EMPTY_STORE
      && StoresOk(r[Slot(i) := QueuedSlot(r[Slot(i)], at)], q[at := SqEntry(c.entry[i].store, i, Slot(i), false)],
                  sqHead, queue + [i], AddStore(c, i))
  {
    var at := Around(sqHead, |queue|, SQ_SIZE);
    var r', q' := r[Slot(i) := QueuedSlot(r[Slot(i)], at)], q[at := SqEntry(c.entry[i].store, i, Slot(i), false)];
    forall k | 0 <= k < |queue|
      ensures queue[k] < i && StoreIn(r', q', Around(sqHead, k, SQ_SIZE), AddStore(c, i), queue[k])
    {
      assert StoreIn(r, q, Around(sqHead, k, SQ_SIZE), c, queue[k]);
      SlotApart(queue[k], i);
    }
    forall k: nat ensures Listed(queue + [i], AddStore(c, i), k) {
      assert Listed(queue, c, k);
    }
  }

  lemma AddStoreOthers(v: View, c: Core, i: nat)
    requires c in Shown(v) && MayEnter(c, i)
    ensures v.sqTail <= SQ_SIZE && v.r[Slot(i)].store == c.entry[i].store
    ensures var r' := v.r[Slot(i) := QueuedSlot(v.r[Slot(i)], v.sqTail)];
      SlotsOk(r', AddStore(c, i)) && LoadsOk(r', v.l, AddStore(c, i))
  {
    var c', m := AddStore(c, i), QueuedSlot(v.r[Slot(i)], v.sqTail);
    assert SlotOk(v.r[Slot(i)], c, i);
    OneSlot(v.r, c, c', i, m);
    forall a, j ensures Live(c', a, j) <==> Live(c, a, j) {}
    forall a, j | Live(c, a, j) ensures SameLoad(v.r, v.r[Slot(i) := m], c, c', a, j) {
      assert SlotOk(v.r[Slot(a)], c, a);
    }
    LoadsSame(v.r, v.r[Slot(i) := m], v.l, c, c');
  }

  lemma AddStoreShown(v: View, c: Core, i: nat)
    requires c in Shown(v) && Reached(c) && MayEnter(c, i) && |v.queue| < SQ_SIZE
    ensures Reached(AddStore(c, i))
    ensures |v.r| == ROB_SIZE && |v.q| == SQ_SIZE && v.sqTail < SQ_SIZE && v.q[v.sqTail] == EMPTY_STORE
    ensures v.r[Slot(i)].store == c.entry[i].store && AddStore(c, i) in Shown(WithStore(v, i))
  {
    ReachedStep(c, StoreEnters(i));
    AddStoreOthers(v, c, i);
    AddStoreStores(v.r, v.q, v.sqHead, v.queue, c, i);
  }

  // ----- Load queue slots -------------------------------------------------------------------

  lemma UsedLess(l: seq<LqEntry>, x: nat)
    requires x < |l| && l[x].address != 0
    ensures |Used(l[x := EMPTY_LOAD])| == |Used(l)| - 1
  {
    assert Used(l[x := EMPTY_LOAD]) == Used(l) - {x};
  }

  lemma UsedMore(l: seq<LqEntry>, x: nat, e: LqEntry)
    requires x < |l| && l[x].address == 0 && e.address != 0
    ensures |Used(l[x := e])| == |Used(l)| + 1
  {
    assert Used(l[x := e]) == Used(l) + {x};
  }

  /** While the load queue is not full, it has a free slot. */
  lemma FreeExists(l: seq<LqEntry>)
    requires |Used(l)| < |l|
    ensures exists x :: 0 <= x < |l| && l[x].address == 0
  {
    if forall x :: 0 <= x < |l| ==> l[x].address != 0 {
      WholeUsed(l);
    }
  }

  lemma WholeUsed(l: seq<LqEntry>)
    requires forall x :: 0 <= x < |l| ==> l[x].address != 0
    ensures |Used(l)| == |l|
  {
    AllUsed(l, |l|);
    assert l[..|l|] == l;
  }

  lemma {:induction false} AllUsed(l: seq<LqEntry>, n: nat)
    requires n <= |l| && forall x :: 0 <= x < |l| ==> l[x].address != 0
    ensures |Used(l[..n])| == n
  {
    if n > 0 {
      AllUsed(l, n - 1);
      assert Used(l[..n]) == Used(l[..n - 1]) + {n - 1};
    } else {
      assert Used(l[..0]) == {};
    }
  }

  // ----- The cache answers ------------------------------------------------------------------

  /** A load that is done leaves its slot; all others keep theirs. */
  lemma LoadLeaves(r: seq<MemSlot>, r': seq<MemSlot>, l: seq<LqEntry>, c: Core, c': Core, i: nat, j: nat)
    requires LoadsOk(r, l, c) && |r'| == ROB_SIZE && Live(c, i, j)
    requires forall a, b :: Live(c', a, b) <==> Live(c, a, b) && !(a == i && b == j)
    requires forall a, b :: Live(c', a, b) ==> SameLoad(r, r', c, c', a, b)
    ensures |r[Slot(i)].lq| == LOADS && r[Slot(i)].lq[j] < LQ_SIZE
    ensures LoadsOk(r', l[r[Slot(i)].lq[j] := EMPTY_LOAD], c')
  {
    assert LoadAt(r, l, c, i, j);
    var x := r[Slot(i)].lq[j];
    forall a, b | Live(c', a, b) ensures LoadAt(r', l[x := EMPTY_LOAD], c', a, b) {
      assert LoadAt(r, l, c, a, b) && SameLoad(r, r', c, c', a, b);
    }
    forall y | 0 <= y < LQ_SIZE && y != x && l[y].address != 0 ensures Owned(r', l[x := EMPTY_LOAD], c', y) {
      assert Owned(r, l, c, y);
      assert SameLoad(r, r', c, c', l[y].id, l[y].index);
    }
  }

  function OneLess(m: MemSlot): MemSlot {
    m.(ops := m.ops - 1)
  }

  /** The view after the cache has answered load j of instruction i. */
  function Answered(v: View, i: nat, j: nat): View
    requires |v.r| == ROB_SIZE && |v.l| == LQ_SIZE && j < |v.r[Slot(i)].lq| && v.r[Slot(i)].lq[j] < LQ_SIZE
  {
    v.(r := v.r[Slot(i) := OneLess(v.r[Slot(i)])], l := v.l[v.r[Slot(i)].lq[j] := EMPTY_LOAD], loads := v.loads - 1)
  }

  lemma AnsweredQueues(v: View, c: Core, i: nat, j: nat)
    requires c in Shown(v) && Live(c, i, j) && c.entry[i].state[j] == Sent
    ensures |v.r| == ROB_SIZE && |v.l| == LQ_SIZE && |v.r[Slot(i)].lq| == LOADS && v.r[Slot(i)].lq[j] < LQ_SIZE
    ensures var v' := Answered(v, i, j);
      LoadsOk(v'.r, v'.l, Fetched(c, i, j)) && StoresOk(v'.r, v'.q, v'.sqHead, v'.queue, Fetched(c, i, j))
  {
    var c', r' := Fetched(c, i, j), v.r[Slot(i) := OneLess(v.r[Slot(i)])];
    forall a, b ensures Live(c', a, b) <==> Live(c, a, b) && !(a == i && b == j) {}
    forall a, b | Live(c', a, b) ensures SameLoad(v.r, r', c, c', a, b) {
      assert SlotOk(v.r[Slot(a)], c, a);
    }
    LoadLeaves(v.r, r', v.l, c, c', i, j);
    StoresSame(v.r, r', v.q, v.sqHead, v.queue, c, c');
  }

  lemma AnsweredSlots(r: seq<MemSlot>, c: Core, i: nat, j: nat)
    requires SlotsOk(r, c) && Live(c, i, j)
    ensures SlotsOk(r[Slot(i) := OneLess(r[Slot(i)])], Fetched(c, i, j))
    ensures |r[Slot(i)].lq| == LOADS
  {
    assert SlotOk(r[Slot(i)], c, i);
    OneSlot(r, c, Fetched(c, i, j), i, OneLess(r[Slot(i)]));
  }

  lemma AnsweredUsed(r: seq<MemSlot>, l: seq<LqEntry>, c: Core, i: nat, j: nat)
    requires LoadsOk(r, l, c) && Live(c, i, j)
    ensures |r[Slot(i)].lq| == LOADS && r[Slot(i)].lq[j] < LQ_SIZE && l[r[Slot(i)].lq[j]] == Image(c, i, j)
    ensures l[r[Slot(i)].lq[j]].address != 0
    ensures |Used(l[r[Slot(i)].lq[j] := EMPTY_LOAD])| == |Used(l)| - 1
  {
    assert LoadAt(r, l, c, i, j);
    UsedLess(l, r[Slot(i)].lq[j]);
  }

  lemma AnsweredShown(v: View, c: Core, i: nat, j: nat)
    requires c in Shown(v) && Reached(c) && Live(c, i, j) && c.entry[i].state[j] == Sent
    ensures Reached(Fetched(c, i, j))
    ensures |v.r| == ROB_SIZE && |v.l| == LQ_SIZE && j < |v.r[Slot(i)].lq| && v.r[Slot(i)].lq[j] < LQ_SIZE
    ensures Fetched(c, i, j) in Shown(Answered(v, i, j))
  {
    ReachedStep(c, CacheAnswers(i, j));
    AnsweredUsed(v.r, v.l, c, i, j);
    AnsweredSlots(v.r, c, i, j);
    AnsweredQueues(v, c, i, j);
    Assemble(v, c, Answered(v, i, j), Fetched(c, i, j));
  }

  // ----- A load enters the load queue -------------------------------------------------------

  /** The store that load j of instruction i depends on. */
  ghost function ProducerOf(c: Core, i: nat, j: nat): (p: Option<nat>)
    requires WellFormed(c) && i < |c.entry| && j < LOADS
    ensures p.Some? ==> c.head <= p.value < i
  {
    Youngest(c.entry, c.head, i, c.entry[i].loads[j])
  }

  /** The state with the dependence recorded, before the load itself changes. */
  ghost function WithDependent(c: Core, i: nat, j: nat): (c': Core)
    requires WellFormed(c) && i < |c.entry| && j < LOADS
    ensures WellFormed(c') && |c'.entry| == |c.entry| && c'.head == c.head
  {
    c.(entry := Bound(c.entry, ProducerOf(c, i, j), i))
  }

  /** The slots with instruction i among the dependents of p. */
  function BoundSlots(r: seq<MemSlot>, p: Option<nat>, i: nat): (r': seq<MemSlot>)
    requires |r| == ROB_SIZE
    ensures |r'| == ROB_SIZE
  {
    if p.None? then r
    else r[Slot(p.value) := WithWaiter(r[Slot(p.value)], i)]
  }

  function WithWaiter(m: MemSlot, i: nat): MemSlot {
    m.(dependents := m.dependents + {Slot(i)})
  }

  lemma BoundShown(v: View, c: Core, i: nat, j: nat)
    requires c in Shown(v) && InWindow(c, i) && j < LOADS
    ensures WithDependent(c, i, j) in Shown(v.(r := BoundSlots(v.r, ProducerOf(c, i, j), i)))
  {
    var p, c' := ProducerOf(c, i, j), WithDependent(c, i, j);
    if p.Some? {
      var k := p.value;
      assert SlotOk(v.r[Slot(k)], c, k);
      AtSlot(c.head, i);
      OneSlot(v.r, c, c', k, WithWaiter(v.r[Slot(k)], i));
      QueuesSame(v, c, c', k, WithWaiter(v.r[Slot(k)], i));
      Assemble(v, c, v.(r := BoundSlots(v.r, p, i)), c');
    } else {
      assert c' == c;
    }
  }

  /** The slot of an instruction whose load j has entered the load queue at x. */
  function EnteredSlot(m: MemSlot, j: nat, x: nat, released: bool): MemSlot
    requires j < |m.added| && j < |m.lq|
  {
    m.(added := m.added[j := true], lq := m.lq[j := x], ops := if released then m.ops - 1 else m.ops)
  }

  /** Load j of instruction i, and nothing else, gets this state. */
  ghost predicate Gets(c: Core, c': Core, i: nat, j: nat, state: LoadState) {
    && WellFormed(c) && WellFormed(c') && InWindow(c, i) && j < LOADS && c'.head == c.head && |c'.entry| == |c.entry|
    && (forall k :: 0 <= k < |c.entry| && k != i ==> c'.entry[k] == c.entry[k])
    && c.entry[i].loads[j] != 0 && c.entry[i].state[j] == Outside && state != Outside
    && c'.entry[i] == c.entry[i].(state := c.entry[i].state[j := state],
                                  pending := if state.Released? then c.entry[i].pending - 1 else c.entry[i].pending)
  }

  lemma AddLoadGets(c: Core, i: nat, j: nat)
    requires WellFormed(c) && InWindow(c, i) && j < LOADS && c.entry[i].loads[j] != 0 && c.entry[i].state[j] == Outside
    ensures Gets(WithDependent(c, i, j), AddLoad(c, i, j), i, j, NewState(c, ProducerOf(c, i, j)))
  {}

  lemma EnterSlots(r: seq<MemSlot>, c: Core, c': Core, i: nat, j: nat, state: LoadState, x: nat)
    requires SlotsOk(r, c) && Gets(c, c', i, j, state)
    ensures |r[Slot(i)].added| == LOADS == |r[Slot(i)].lq|
    ensures SlotsOk(r[Slot(i) := EnteredSlot(r[Slot(i)], j, x, state.Released?)], c')
  {
    assert SlotOk(r[Slot(i)], c, i);
    OneSlot(r, c, c', i, EnteredSlot(r[Slot(i)], j, x, state.Released?));
  }

  /** A load that waits or is sent takes a free slot; the others keep theirs. */
  lemma LoadJoins(r: seq<MemSlot>, r': seq<MemSlot>, l: seq<LqEntry>, c: Core, c': Core, i: nat, j: nat, x: nat)
    requires LoadsOk(r, l, c) && |r'| == ROB_SIZE && Live(c', i, j) && !Live(c, i, j)
    requires x < LQ_SIZE && l[x].address == 0 && |r'[Slot(i)].lq| == LOADS && r'[Slot(i)].lq[j] == x
    requires forall a, b :: Live(c', a, b) <==> Live(c, a, b) || (a == i && b == j)
    requires forall a, b :: Live(c, a, b) ==> SameLoad(r, r', c, c', a, b)
    ensures LoadsOk(r', l[x := Image(c', i, j)], c')
  {
    var l' := l[x := Image(c', i, j)];
    forall a, b | Live(c', a, b) ensures LoadAt(r', l', c', a, b) {
      if Live(c, a, b) {
        assert LoadAt(r, l, c, a, b) && SameLoad(r, r', c, c', a, b);
      }
    }
    forall y | 0 <= y < LQ_SIZE && y != x && l[y].address != 0 ensures Owned(r', l', c', y) {
      assert Owned(r, l, c, y);
      assert SameLoad(r, r', c, c', l[y].id, l[y].index);
    }
  }

  /** The view after load j of instruction i has entered: with this entry in slot x, or served at once. */
  function EnteredView(v: View, i: nat, j: nat, x: nat, e: LqEntry, released: bool): View
    requires |v.r| == ROB_SIZE && j < |v.r[Slot(i)].added| && j < |v.r[Slot(i)].lq| && x < |v.l|
  {
    v.(r := v.r[Slot(i) := EnteredSlot(v.r[Slot(i)], j, x, released)], l := if released then v.l else v.l[x := e],
       loads := if released then v.loads else v.loads + 1)
  }

  /** The other loads and the stores keep theirs. */
  lemma EnterFrame(v: View, c: Core, c': Core, i: nat, j: nat, state: LoadState, x: nat, a: nat, b: nat)
    requires c in Shown(v) && Gets(c, c', i, j, state) && Live(c, a, b)
    ensures |v.r| == ROB_SIZE && |v.r[Slot(i)].added| == LOADS == |v.r[Slot(i)].lq| && Live(c', a, b)
    ensures SameLoad(v.r, v.r[Slot(i) := EnteredSlot(v.r[Slot(i)], j, x, state.Released?)], c, c', a, b)
  {
    assert SlotOk(v.r[Slot(a)], c, a) && SlotOk(v.r[Slot(i)], c, i);
    if a != i {
      SlotApart(a, i);
    }
  }

  lemma EnterLoads(v: View, c: Core, c': Core, i: nat, j: nat, state: LoadState, x: nat)
    requires c in Shown(v) && Gets(c, c', i, j, state) && x < LQ_SIZE
    requires !state.Released? ==> v.l[x].address == 0
    ensures |v.r| == ROB_SIZE && |v.r[Slot(i)].added| == LOADS == |v.r[Slot(i)].lq| && |v.l| == LQ_SIZE
    ensures !state.Released? ==> Live(c', i, j)
    ensures var r' := v.r[Slot(i) := EnteredSlot(v.r[Slot(i)], j, x, state.Released?)];
      LoadsOk(r', if state.Released? then v.l else v.l[x := Image(c', i, j)], c')
  {
    assert SlotOk(v.r[Slot(i)], c, i);
    var r' := v.r[Slot(i) := EnteredSlot(v.r[Slot(i)], j, x, state.Released?)];
    forall a, b | Live(c, a, b) ensures Live(c', a, b) && SameLoad(v.r, r', c, c', a, b) {
      EnterFrame(v, c, c', i, j, state, x, a, b);
    }
    forall a, b ensures Live(c', a, b) <==> Live(c, a, b) || (a == i && b == j && !state.Released?) {}
    if state.Released? {
      LoadsSame(v.r, r', v.l, c, c');
    } else {
      LoadJoins(v.r, r', v.l, c, c', i, j, x);
    }
  }

  lemma EnterStores(v: View, c: Core, c': Core, i: nat, j: nat, state: LoadState, x: nat)
    requires c in Shown(v) && Gets(c, c', i, j, state)
    ensures |v.r| == ROB_SIZE && |v.r[Slot(i)].added| == LOADS == |v.r[Slot(i)].lq|
    ensures StoresOk(v.r[Slot(i) := EnteredSlot(v.r[Slot(i)], j, x, state.Released?)], v.q, v.sqHead, v.queue, c')
  {
    assert SlotOk(v.r[Slot(i)], c, i);
    StoresSame(v.r, v.r[Slot(i) := EnteredSlot(v.r[Slot(i)], j, x, state.Released?)], v.q, v.sqHead, v.queue, c, c');
  }

  lemma EnterShown(v: View, c: Core, c': Core, i: nat, j: nat, state: LoadState, x: nat, e: LqEntry)
    requires c in Shown(v) && Gets(c, c', i, j, state) && x < LQ_SIZE && v.l[x].address == 0
    requires !state.Released? ==> Live(c', i, j) && e == Image(c', i, j)
    ensures |v.r| == ROB_SIZE && |v.r[Slot(i)].added| == LOADS == |v.r[Slot(i)].lq| && |v.l| == LQ_SIZE
    ensures c' in Shown(EnteredView(v, i, j, x, e, state.Released?))
  {
    EnterSlots(v.r, c, c', i, j, state, x);
    EnterLoads(v, c, c', i, j, state, x);
    EnterStores(v, c, c', i, j, state, x);
    if !state.Released? {
      UsedMore(v.l, x, e);
    }
    Assemble(v, c, EnteredView(v, i, j, x, e, state.Released?), c');
  }

  // ----- A store executes -------------------------------------------------------------------

  /** Load j of the slot is in the load queue with this address. */
  predicate Hit(m: MemSlot, j: nat, address: nat) {
    j < |m.loads| && j < |m.added| && m.loads[j] != 0 && m.added[j] && m.loads[j] == address
  }

  /** How many of the first n loads do. */
  function Hits(m: MemSlot, n: nat, address: nat): nat {
    if n == 0 then 0 else Hits(m, n - 1, address) + One(Hit(m, n - 1, address))
  }

  /** The dependents of instruction p after its store has executed; p itself has one operation less. */
  function DoneSlots(r: seq<MemSlot>, p: nat): (r': seq<MemSlot>)
    requires |r| == ROB_SIZE
    ensures |r'| == ROB_SIZE
  {
    seq(ROB_SIZE, k requires 0 <= k < ROB_SIZE =>
      if k == Slot(p) then OneLess(r[k])
      else if k in r[Slot(p)].dependents then r[k].(ops := r[k].ops - Hits(r[k], LOADS, r[Slot(p)].store)) else r[k])
  }

  /** The load queue without the loads that waited for p. */
  function DoneLoads(l: seq<LqEntry>, p: nat): (l': seq<LqEntry>)
    ensures |l'| == |l|
  {
    seq(|l|, x requires 0 <= x < |l| => if l[x].producer == Some(p) then EMPTY_LOAD else l[x])
  }

  lemma HitsAll(m: MemSlot, address: nat)
    ensures Hits(m, LOADS, address) == One(Hit(m, 0, address)) + One(Hit(m, 1, address)) + One(Hit(m, 2, address)) +
      One(Hit(m, 3, address))
  {
    assert Hits(m, 1, address) == One(Hit(m, 0, address));
    assert Hits(m, 2, address) == Hits(m, 1, address) + One(Hit(m, 1, address));
  }

  /** A dependent that has been forwarded the data. */
  lemma ForwardedSlotOk(m: MemSlot, c: Core, c': Core, i: nat, address: nat, p: nat)
    requires WellFormed(c) && WellFormed(c') && i < |c.entry| == |c'.entry| && c'.head == c.head && SlotOk(m, c, i)
    requires c'.entry[i] == Forward(c.entry[i], address, p)
    ensures SlotOk(m.(ops := m.ops - Hits(m, LOADS, address)), c', i)
  {
    HitsAll(m, address);
    forall j | 0 <= j < LOADS ensures Hit(m, j, address) == Matches(c.entry[i], j, address) {}
  }

  lemma DoneSlot(r: seq<MemSlot>, c: Core, p: nat, i: nat)
    requires SlotsOk(r, c) && InWindow(c, p) && InWindow(c, i)
    ensures SlotOk(DoneSlots(r, p)[Slot(i)], ExecuteStore(c, p), i)
  {
    assert SlotOk(r[Slot(i)], c, i) && SlotOk(r[Slot(p)], c, p);
    AtSlot(c.head, i);
    if i != p {
      SlotApart(i, p);
      if i in c.entry[p].dependents {
        ForwardedSlotOk(r[Slot(i)], c, ExecuteStore(c, p), i, r[Slot(p)].store, p);
      }
    }
  }

  lemma DoneLive(c: Core, p: nat, i: nat, j: nat)
    requires Reached(c) && WellFormed(c) && InWindow(c, p) && c.entry[p].store != 0 && !c.entry[p].done
    ensures Live(ExecuteStore(c, p), i, j) <==> Live(c, i, j) && c.entry[i].state[j] != Waiting(p)
    ensures Live(c, i, j) && c.entry[i].state[j] == Waiting(p) ==>
      i != p && i in c.entry[p].dependents && WellFormed(c) && Matches(c.entry[i], j, c.entry[p].store)
    ensures Live(ExecuteStore(c, p), i, j) ==> Image(ExecuteStore(c, p), i, j) == Image(c, i, j)
  {
    ReachedKeeps(c);
    if Live(c, i, j) {
      if c.entry[i].state[j] == Waiting(p) {
        WaiterIsDependent(c, p, i, j);
      } else if i in c.entry[p].dependents && Matches(c.entry[i], j, c.entry[p].store) {
        ProducerMatches(c, p, i, j);
      }
    }
  }

  lemma DoneLoadsOk(r: seq<MemSlot>, r': seq<MemSlot>, l: seq<LqEntry>, c: Core, p: nat)
    requires SlotsOk(r, c) && LoadsOk(r, l, c) && Reached(c) && InWindow(c, p) && c.entry[p].store != 0
    requires !c.entry[p].done
    requires |r'| == ROB_SIZE && forall k :: 0 <= k < ROB_SIZE ==> r'[k].lq == r[k].lq
    ensures LoadsOk(r', DoneLoads(l, p), ExecuteStore(c, p))
  {
    var c', l' := ExecuteStore(c, p), DoneLoads(l, p);
    forall i, j | Live(c', i, j) ensures LoadAt(r', l', c', i, j) {
      DoneLive(c, p, i, j);
      assert LoadAt(r, l, c, i, j);
    }
    forall x | 0 <= x < LQ_SIZE && l'[x].address != 0 ensures Owned(r', l', c', x) {
      assert Owned(r, l, c, x);
      assert LoadAt(r, l, c, l[x].id, l[x].index);
      DoneLive(c, p, l[x].id, l[x].index);
    }
  }

  lemma DoneStoresOk(r: seq<MemSlot>, r': seq<MemSlot>, q: seq<SqEntry>, sqHead: nat, queue: seq<nat>, c: Core, p: nat)
    requires SlotsOk(r, c) && StoresOk(r, q, sqHead, queue, c) && InWindow(c, p) && c.entry[p].inQueue
    requires |r'| == ROB_SIZE && forall k :: 0 <= k < ROB_SIZE ==> r'[k].sq == r[k].sq
    ensures r[Slot(p)].sq < SQ_SIZE && q[r[Slot(p)].sq] == SqEntry(c.entry[p].store, p, Slot(p), c.entry[p].done)
    ensures StoresOk(r', q[r[Slot(p)].sq := q[r[Slot(p)].sq].(executed := true)], sqHead, queue, ExecuteStore(c, p))
  {
    var c' := ExecuteStore(c, p);
    assert Listed(queue, c, p);
    var n :| 0 <= n < |queue| && queue[n] == p;
    assert StoreIn(r, q, Around(sqHead, n, SQ_SIZE), c, queue[n]);
    var at := Around(sqHead, n, SQ_SIZE);
    var q' := q[at := q[at].(executed := true)];
    forall k | 0 <= k < |queue| ensures StoreIn(r', q', Around(sqHead, k, SQ_SIZE), c', queue[k]) {
      assert StoreIn(r, q, Around(sqHead, k, SQ_SIZE), c, queue[k]);
    }
    forall i: nat ensures Listed(queue, c', i) {
      assert Listed(queue, c, i);
    }
  }

  /** What load j of the dependent in slot d has in the load queue, if it waits for p. */
  lemma OneHit(r: seq<MemSlot>, l: seq<LqEntry>, c: Core, p: nat, d: nat, j: nat)
    requires SlotsOk(r, c) && LoadsOk(r, l, c) && Reached(c) && InWindow(c, p) && c.entry[p].store != 0
    requires !c.entry[p].done
    requires d in r[Slot(p)].dependents && j < LOADS
    ensures d < ROB_SIZE && |r[d].loads| == LOADS == |r[d].added| == |r[d].lq|
    ensures Hit(r[d], j, r[Slot(p)].store) ==>
      && r[d].lq[j] < LQ_SIZE && l[r[d].lq[j]].producer == Some(p) && l[r[d].lq[j]].address != 0
      && l[r[d].lq[j]].rob == d && l[r[d].lq[j]].index == j
    ensures forall x :: 0 <= x < LQ_SIZE && l[x].producer == Some(p) && l[x].rob == d && l[x].index == j ==>
      Hit(r[d], j, r[Slot(p)].store) && x == r[d].lq[j]
  {
    var i := InstrAt(c.head, d);
    assert SlotOk(r[Slot(p)], c, p);
    ReachedKeeps(c);
    assert BoundOk(c, p, i);
    assert SlotOk(r[d], c, i);
    if Hit(r[d], j, r[Slot(p)].store) {
      ProducerMatches(c, p, i, j);
      assert LoadAt(r, l, c, i, j);
    }
    forall x | 0 <= x < LQ_SIZE && l[x].producer == Some(p) && l[x].rob == d && l[x].index == j
      ensures Hit(r[d], j, r[Slot(p)].store) && x == r[d].lq[j]
    {
      assert Owned(r, l, c, x);
      assert LoadAt(r, l, c, l[x].id, j);
      AtSlot(c.head, l[x].id);
      DoneLive(c, p, l[x].id, j);
    }
  }

  /** A load that waits for p belongs to a dependent of p. */
  lemma WaiterSlot(r: seq<MemSlot>, l: seq<LqEntry>, c: Core, p: nat, x: nat)
    requires SlotsOk(r, c) && LoadsOk(r, l, c) && Reached(c) && InWindow(c, p) && c.entry[p].store != 0
    requires !c.entry[p].done
    requires x < LQ_SIZE && l[x].producer == Some(p)
    ensures l[x].rob in r[Slot(p)].dependents && l[x].index < LOADS
  {
    assert Owned(r, l, c, x) && SlotOk(r[Slot(p)], c, p);
    assert LoadAt(r, l, c, l[x].id, l[x].index);
    DoneLive(c, p, l[x].id, l[x].index);
  }

  /** The view after the store of instruction p has executed. */
  function DoneView(v: View, p: nat): View
    requires |v.r| == ROB_SIZE && v.r[Slot(p)].sq < |v.q|
  {
    v.(r := DoneSlots(v.r, p), l := DoneLoads(v.l, p),
       q := v.q[v.r[Slot(p)].sq := v.q[v.r[Slot(p)].sq].(executed := true)], loads := |Used(DoneLoads(v.l, p))|)
  }

  lemma DoneSlotsOk(r: seq<MemSlot>, c: Core, p: nat)
    requires SlotsOk(r, c) && InWindow(c, p)
    ensures SlotsOk(DoneSlots(r, p), ExecuteStore(c, p))
  {
    forall i: nat | InWindow(c, i) ensures SlotOk(DoneSlots(r, p)[Slot(i)], ExecuteStore(c, p), i) {
      DoneSlot(r, c, p, i);
    }
  }

  lemma DonePlaces(r: seq<MemSlot>, p: nat)
    requires |r| == ROB_SIZE
    ensures forall k :: 0 <= k < ROB_SIZE ==> DoneSlots(r, p)[k].lq == r[k].lq && DoneSlots(r, p)[k].sq == r[k].sq
  {}

  lemma DoneQueues(v: View, c: Core, p: nat)
    requires c in Shown(v) && Reached(c) && InWindow(c, p) && c.entry[p].store != 0 && c.entry[p].inQueue
    requires !c.entry[p].done
    ensures |v.r| == ROB_SIZE && v.r[Slot(p)].sq < |v.q|
    ensures var v' := DoneView(v, p);
      LoadsOk(v'.r, v'.l, ExecuteStore(c, p)) && StoresOk(v'.r, v'.q, v'.sqHead, v'.queue, ExecuteStore(c, p))
  {
    DonePlaces(v.r, p);
    DoneStoresOk(v.r, DoneSlots(v.r, p), v.q, v.sqHead, v.queue, c, p);
    DoneLoadsOk(v.r, DoneSlots(v.r, p), v.l, c, p);
  }

  lemma DoneShown(v: View, c: Core, p: nat)
    requires c in Shown(v) && Reached(c) && InWindow(c, p) && c.entry[p].store != 0 && c.entry[p].inQueue
    requires !c.entry[p].done
    ensures |v.r| == ROB_SIZE && v.r[Slot(p)].sq < |v.q| && Reached(ExecuteStore(c, p))
    ensures ExecuteStore(c, p) in Shown(DoneView(v, p))
  {
    ReachedStep(c, StoreExecutes(p));
    DoneSlotsOk(v.r, c, p);
    DoneQueues(v, c, p);
    Assemble(v, c, DoneView(v, p), ExecuteStore(c, p));
  }

  /** What a filled place of the store queue says. */
  lemma StoreSays(v: View, c: Core, y: nat)
    requires c in Shown(v) && y < |v.q| && v.q[y].address != 0
    ensures var p := v.q[y].id;
      && InWindow(c, p) && v.q[y] == SqEntry(c.entry[p].store, p, Slot(p), c.entry[p].done)
      && c.entry[p].store != 0 && c.entry[p].inQueue
      && |v.r| == ROB_SIZE && v.r[Slot(p)].sq == y && v.r[Slot(p)].store == c.entry[p].store
  {
    var k := if y >= v.sqHead then y - v.sqHead else y + SQ_SIZE - v.sqHead;
    assert Around(v.sqHead, k, SQ_SIZE) == y;
    assert k < |v.queue|;
    assert StoreIn(v.r, v.q, y, c, v.queue[k]);
    assert SlotOk(v.r[Slot(v.queue[k])], c, v.queue[k]);
  }

  /** What a used slot of the load queue says. */
  lemma LoadSays(v: View, c: Core, x: nat)
    requires c in Shown(v) && x < |v.l| && v.l[x].address != 0
    ensures var i, j := v.l[x].id, v.l[x].index;
      && Live(c, i, j) && v.l[x] == Image(c, i, j) && |v.r| == ROB_SIZE && |v.r[Slot(i)].lq| == LOADS
      && v.r[Slot(i)].lq[j] == x
  {
    assert Owned(v.r, v.l, c, x);
    assert LoadAt(v.r, v.l, c, v.l[x].id, v.l[x].index);
  }

  // ----- The search for the producer of a load ----------------------------------------------

  /** Looking one instruction further back. */
  lemma {:induction false} YoungestBack(s: seq<Entry>, low: nat, i: nat, address: nat)
    requires low < i <= |s|
    ensures Youngest(s, low, i, address) ==
      if Youngest(s, low + 1, i, address).Some? then Youngest(s, low + 1, i, address)
      else if s[low].store == address then Some(low) else None
  {
    if low + 1 < i {
      YoungestBack(s, low, i - 1, address);
    }
  }

  /** Once it has been found, looking further back does not change it. */
  lemma {:induction false} YoungestFound(s: seq<Entry>, low: nat, m: nat, i: nat, address: nat)
    requires low <= m <= i <= |s| && Youngest(s, m, i, address).Some?
    ensures Youngest(s, low, i, address) == Youngest(s, m, i, address)
    decreases m - low
  {
    if low < m {
      YoungestFound(s, low + 1, m, i, address);
      YoungestBack(s, low, i, address);
    }
  }

  function WithProducer(l: seq<LqEntry>, x: nat, p: Option<nat>): (l': seq<LqEntry>)
    requires x < |l|
    ensures |l'| == |l|
  {
    if p.None? then l else l[x := l[x].(producer := p)]
  }

  /** Looking back as far as instruction n, from instruction i, for a store to the address. */
  ghost predicate Searched(r0: seq<MemSlot>, l0: seq<LqEntry>, r: seq<MemSlot>, l: seq<LqEntry>, c: Core, n: nat,
                           i: nat, address: nat, x: nat)
  {
    && n <= i <= |c.entry| && |r0| == ROB_SIZE && x < |l0|
    && r == BoundSlots(r0, Youngest(c.entry, n, i, address), i)
    && l == WithProducer(l0, x, Youngest(c.entry, n, i, address))
  }

  /** What the search reads of the slot of an instruction. */
  ghost predicate SlotSays(r: seq<MemSlot>, c: Core, k: nat) {
    k < |c.entry| && |r| == ROB_SIZE && r[Slot(k)].id == k && r[Slot(k)].store == c.entry[k].store &&
      r[Slot(k)].loads == c.entry[k].loads
  }

  /** Instruction n - 1 is looked at. */
  lemma SearchStep(r0: seq<MemSlot>, l0: seq<LqEntry>, r: seq<MemSlot>, l: seq<LqEntry>, c: Core, n: nat, i: nat,
                   address: nat, x: nat)
    requires Searched(r0, l0, r, l, c, n, i, address, x) && x < |l| && l0[x].producer.None? && l[x].producer.None?
    requires c.head < n <= i < |c.entry| <= c.head + ROB_SIZE && WellFormed(c) && address != 0
    requires SlotSays(r0, c, n - 1) && SlotSays(r0, c, i)
    ensures |r| == ROB_SIZE && r[Slot(i)].loads == c.entry[i].loads
    ensures r[Slot(n - 1)].store == c.entry[n - 1].store && r[Slot(n - 1)].id == n - 1
    ensures c.entry[n - 1].store == address ==>
      Searched(r0, l0, r[Slot(n - 1) := WithWaiter(r[Slot(n - 1)], i)], l[x := l[x].(producer := Some(n - 1))], c,
               n - 1, i, address, x)
    ensures c.entry[n - 1].store != address ==> Searched(r0, l0, r, l, c, n - 1, i, address, x)
  {
    YoungestBack(c.entry, n - 1, i, address);
  }

  /** The load after it has entered the queue, with the dependence found. */
  lemma AddLoadShown(v: View, c: Core, i: nat, j: nat, x: nat)
    requires c in Shown(v) && Reached(c) && InWindow(c, i) && j < LOADS && c.entry[i].loads[j] != 0
    requires c.entry[i].state[j] == Outside && x < |v.l| && v.l[x].address == 0
    ensures |v.r| == ROB_SIZE && Reached(AddLoad(c, i, j))
    ensures var r := BoundSlots(v.r, ProducerOf(c, i, j), i);
      && |r[Slot(i)].added| == LOADS == |r[Slot(i)].lq|
      && AddLoad(c, i, j) in
           Shown(EnteredView(v.(r := r), i, j, x, LqEntry(c.entry[i].loads[j], i, Slot(i), j, ProducerOf(c, i, j)),
                             NewState(c, ProducerOf(c, i, j)).Released?))
  {
    var state := NewState(c, ProducerOf(c, i, j));
    ReachedStep(c, LoadEnters(i, j));
    BoundShown(v, c, i, j);
    AddLoadGets(c, i, j);
    EnterShown(v.(r := BoundSlots(v.r, ProducerOf(c, i, j), i)), WithDependent(c, i, j), AddLoad(c, i, j), i, j,
               state, x, LqEntry(c.entry[i].loads[j], i, Slot(i), j, ProducerOf(c, i, j)));
  }

  /** This place of the store queue holds the store that produces the load's value. */
  predicate Forwards(e: SqEntry, l: LqEntry) {
    e.address != 0 && e.address == l.address && l.producer == Some(e.id)
  }

  /** What the search of the store queue for the producer of this load comes to: a place, or the size. */
  ghost predicate FoundAt(q: seq<SqEntry>, head: nat, current: nat, e: LqEntry, f: nat) {
    && |q| == SQ_SIZE && f <= SQ_SIZE && (f < SQ_SIZE ==> current != head && Forwards(q[f], e))
    && (f == SQ_SIZE ==> current == head || forall y :: 0 <= y < SQ_SIZE ==> !Forwards(q[y], e))
  }

  /** It finds the producer exactly when that has entered, and what it finds has executed exactly when the
      load need not wait. */
  lemma ForwardMeans(v: View, c: Core, i: nat, j: nat, e: LqEntry, f: nat)
    requires c in Shown(v) && Reached(c) && InWindow(c, i) && j < LOADS && e.address == c.entry[i].loads[j] != 0
    requires e.producer == ProducerOf(c, i, j) && FoundAt(v.q, v.head, Slot(i), e, f)
    ensures (f < SQ_SIZE && v.q[f].executed) == NewState(c, ProducerOf(c, i, j)).Released?
  {
    if f < SQ_SIZE {
      StoreSays(v, c, f);
    } else {
      var p := ProducerOf(c, i, j);
      if NewState(c, p).Released? {
        ReachedKeeps(c);
        SlotApart(i, c.head);
        assert EntryOk(c, p.value);
        DoneStoresOk(v.r, v.r, v.q, v.sqHead, v.queue, c, p.value);
        assert Forwards(v.q[v.r[Slot(p.value)].sq], e);
        assert false;
      }
    }
  }

  /** The view once the load has been bound, and then has taken its slot or been served at once. */
  function FinishedView(v: View, r: seq<MemSlot>, l: seq<LqEntry>, k: nat, j: nat, x: nat, released: bool): View
    requires k < |r| && j < |r[k].added| && j < |r[k].lq| && x < |l|
  {
    v.(r := r[k := EnteredSlot(r[k], j, x, released)], l := if released then l[x := EMPTY_LOAD] else l,
       loads := if released then v.loads else v.loads + 1)
  }

  /** It is the view of AddLoadShown. */
  lemma EnteredArrays(v: View, r: seq<MemSlot>, l: seq<LqEntry>, p: Option<nat>, i: nat, j: nat, x: nat, e: LqEntry,
                      released: bool)
    requires |v.r| == ROB_SIZE && x < |v.l| && v.l[x] == EMPTY_LOAD && e.producer == p
    requires (p.Some? ==> Slot(p.value) != Slot(i))
    requires j < |v.r[Slot(i)].added| && j < |v.r[Slot(i)].lq|
    requires r == BoundSlots(v.r, p, i) && l == WithProducer(v.l[x := e.(producer := None)], x, p)
    ensures |r| == ROB_SIZE && j < |r[Slot(i)].added| && j < |r[Slot(i)].lq|
    ensures EnteredView(v.(r := r), i, j, x, e, released) == FinishedView(v, r, l, Slot(i), j, x, released)
  {
    assert e.(producer := None).(producer := p) == e;
    assert v.l[x := EMPTY_LOAD] == v.l;
  }

  /** What the search needs to know of the slots. */
  lemma SearchStart(v: View, c: Core, i: nat, j: nat, x: nat, e: LqEntry)
    requires c in Shown(v) && InWindow(c, i) && j < LOADS && c.entry[i].loads[j] != 0 && x < |v.l| && e.producer.None?
    ensures forall k: nat :: InWindow(c, k) && k <= i ==> SlotSays(v.r, c, k)
    ensures WellFormed(c) && i < |c.entry| <= c.head + ROB_SIZE
    ensures Searched(v.r, v.l[x := e], v.r, v.l[x := e], c, i, i, c.entry[i].loads[j], x)
  {
    forall k: nat | InWindow(c, k) ensures SlotSays(v.r, c, k) {
      assert SlotOk(v.r[Slot(k)], c, k);
    }
  }

  /** The slot of a load that may enter says so. */
  lemma LoadToEnter(v: View, c: Core, k: nat, j: nat)
    requires c in Shown(v) && k < ROB_SIZE && InWindow(c, InstrAt(c.head, k)) && j < LOADS
    ensures |v.r| == ROB_SIZE && WellFormed(c) && k == Slot(InstrAt(c.head, k))
    ensures var i := InstrAt(c.head, k);
      && v.r[k].loads == c.entry[i].loads && v.r[k].id == i && |v.r[k].added| == LOADS == |v.r[k].lq|
      && (v.r[k].added[j] <==> c.entry[i].state[j] != Outside)
    ensures v.loads == |Used(v.l)| && |v.l| == LQ_SIZE
    ensures forall x :: 0 <= x < LQ_SIZE && v.l[x].address == 0 ==> v.l[x] == EMPTY_LOAD
  {
    assert SlotOk(v.r[k], c, InstrAt(c.head, k));
  }

  // ----- The loads that an executing store releases -----------------------------------------

  /** Instruction p is executing its store, and dependent d is one of those it releases. */
  ghost predicate Executing(v: View, c: Core, p: nat) {
    && c in Shown(v) && Reached(c) && InWindow(c, p) && c.entry[p].store != 0 && c.entry[p].inQueue && !c.entry[p].done
    && |v.r| == ROB_SIZE && |v.l| == LQ_SIZE && v.r[Slot(p)].sq < |v.q|
  }

  /** The slots when all dependents but those in the slots `todo` have been released. */
  function PartSlots(r: seq<MemSlot>, p: nat, todo: set<nat>): (r': seq<MemSlot>)
    requires |r| == ROB_SIZE
    ensures |r'| == ROB_SIZE
  {
    seq(ROB_SIZE, k requires 0 <= k < ROB_SIZE =>
      if k == Slot(p) then OneLess(r[k])
      else if k in r[Slot(p)].dependents && k !in todo then
        r[k].(ops := r[k].ops - Hits(r[k], LOADS, r[Slot(p)].store))
      else r[k])
  }

  /** The slots when, besides, the first j loads of the dependent in slot d have been looked at. */
  function MoreSlots(r: seq<MemSlot>, p: nat, todo: set<nat>, d: nat, j: nat): (r': seq<MemSlot>)
    requires |r| == ROB_SIZE && d < ROB_SIZE
    ensures |r'| == ROB_SIZE
  {
    PartSlots(r, p, todo)[d := r[d].(ops := r[d].ops - Hits(r[d], j, r[Slot(p)].store))]
  }

  /** The load queue then. */
  function MoreLoads(l: seq<LqEntry>, p: nat, todo: set<nat>, d: nat, j: nat): (l': seq<LqEntry>)
    ensures |l'| == |l|
  {
    seq(|l|, x requires 0 <= x < |l| =>
      if l[x].producer == Some(p) && (l[x].rob !in todo || (l[x].rob == d && l[x].index < j)) then EMPTY_LOAD else l[x])
  }

  /** The view in between: the store has executed, and the dependents in `todo`, but for the first j loads of
      the one in slot d, are still to be released. */
  function MoreView(v: View, p: nat, todo: set<nat>, d: nat, j: nat): View
    requires |v.r| == ROB_SIZE && d < ROB_SIZE && v.r[Slot(p)].sq < |v.q|
  {
    v.(r := MoreSlots(v.r, p, todo, d, j), l := MoreLoads(v.l, p, todo, d, j),
       loads := |Used(MoreLoads(v.l, p, todo, d, j))|,
       q := v.q[v.r[Slot(p)].sq := v.q[v.r[Slot(p)].sq].(executed := true)])
  }

  function PartView(v: View, p: nat, todo: set<nat>): View
    requires |v.r| == ROB_SIZE && v.r[Slot(p)].sq < |v.q|
  {
    v.(r := PartSlots(v.r, p, todo), l := MoreLoads(v.l, p, todo, 0, 0), loads := |Used(MoreLoads(v.l, p, todo, 0, 0))|,
       q := v.q[v.r[Slot(p)].sq := v.q[v.r[Slot(p)].sq].(executed := true)])
  }

  lemma MoreSame(r: seq<MemSlot>, l: seq<LqEntry>, p: nat, todo: set<nat>, d: nat, j: nat)
    requires |r| == ROB_SIZE && d < ROB_SIZE && !Hit(r[d], j, r[Slot(p)].store)
    requires forall x :: 0 <= x < |l| ==> !(l[x].producer == Some(p) && l[x].rob == d && l[x].index == j)
    ensures MoreSlots(r, p, todo, d, j + 1) == MoreSlots(r, p, todo, d, j)
    ensures MoreLoads(l, p, todo, d, j + 1) == MoreLoads(l, p, todo, d, j)
  {}

  lemma MoreHitSlots(r: seq<MemSlot>, p: nat, todo: set<nat>, d: nat, j: nat)
    requires |r| == ROB_SIZE && d < ROB_SIZE && Hit(r[d], j, r[Slot(p)].store)
    ensures MoreSlots(r, p, todo, d, j + 1) == MoreSlots(r, p, todo, d, j)[d := OneLess(MoreSlots(r, p, todo, d, j)[d])]
  {}

  lemma MoreHitLoads(l: seq<LqEntry>, p: nat, todo: set<nat>, d: nat, j: nat, x: nat)
    requires x < |l| && l[x].producer == Some(p) && l[x].rob == d && l[x].index == j && l[x].address != 0 && d in todo
    requires forall y :: 0 <= y < |l| && l[y].producer == Some(p) && l[y].rob == d && l[y].index == j ==> y == x
    ensures MoreLoads(l, p, todo, d, j)[x] == l[x]
    ensures MoreLoads(l, p, todo, d, j + 1) == MoreLoads(l, p, todo, d, j)[x := EMPTY_LOAD]
    ensures |Used(MoreLoads(l, p, todo, d, j + 1))| == |Used(MoreLoads(l, p, todo, d, j))| - 1
  {
    UsedLess(MoreLoads(l, p, todo, d, j), x);
  }

  lemma MoreLast(r: seq<MemSlot>, l: seq<LqEntry>, p: nat, todo: set<nat>, d: nat)
    requires |r| == ROB_SIZE && d < ROB_SIZE && d != Slot(p) && d in r[Slot(p)].dependents
    requires forall x :: 0 <= x < |l| && l[x].producer == Some(p) ==> l[x].index < LOADS
    ensures MoreSlots(r, p, todo, d, LOADS) == PartSlots(r, p, todo - {d})
    ensures MoreLoads(l, p, todo, d, LOADS) == MoreLoads(l, p, todo - {d}, 0, 0)
  {}

  /** A load that the store does not release. */
  lemma MissStep(v: View, c: Core, p: nat, todo: set<nat>, d: nat, j: nat)
    requires Executing(v, c, p) && d in v.r[Slot(p)].dependents && j < LOADS
    requires d < ROB_SIZE && !Hit(v.r[d], j, v.r[Slot(p)].store)
    ensures MoreView(v, p, todo, d, j + 1) == MoreView(v, p, todo, d, j)
  {
    OneHit(v.r, v.l, c, p, d, j);
    MoreSame(v.r, v.l, p, todo, d, j);
  }

  /** A load that it does. */
  lemma HitStep(v: View, c: Core, p: nat, todo: set<nat>, d: nat, j: nat)
    requires Executing(v, c, p) && d in v.r[Slot(p)].dependents && d in todo && j < LOADS && d < ROB_SIZE
    requires Hit(v.r[d], j, v.r[Slot(p)].store)
    ensures |v.r[d].lq| == LOADS && v.r[d].lq[j] < LQ_SIZE
    ensures var x, w := v.r[d].lq[j], MoreView(v, p, todo, d, j);
      && w.l[x].producer == Some(p) && w.l[x].rob == d
      && MoreView(v, p, todo, d, j + 1) == w.(r := w.r[d := OneLess(w.r[d])], l := w.l[x := EMPTY_LOAD],
                                              loads := w.loads - 1)
  {
    OneHit(v.r, v.l, c, p, d, j);
    MoreHitSlots(v.r, p, todo, d, j);
    MoreHitLoads(v.l, p, todo, d, j, v.r[d].lq[j]);
  }

  lemma MoreFirst(r: seq<MemSlot>, l: seq<LqEntry>, p: nat, todo: set<nat>, d: nat)
    requires |r| == ROB_SIZE && d < ROB_SIZE && d != Slot(p) && d in todo
    ensures MoreSlots(r, p, todo, d, 0) == PartSlots(r, p, todo)
    ensures MoreLoads(l, p, todo, d, 0) == MoreLoads(l, p, todo, 0, 0)
  {}

  lemma DependentElsewhere(r: seq<MemSlot>, c: Core, p: nat, d: nat)
    requires SlotsOk(r, c) && Reached(c) && InWindow(c, p) && d in r[Slot(p)].dependents
    ensures d < ROB_SIZE && d != Slot(p)
  {
    ReachedKeeps(c);
    assert SlotOk(r[Slot(p)], c, p) && BoundOk(c, p, InstrAt(c.head, d));
    SlotApart(InstrAt(c.head, d), p);
  }

  /** A dependent is another instruction than the store, and its slot is unchanged before it is reached. */
  lemma FirstLoad(v: View, c: Core, p: nat, todo: set<nat>, d: nat)
    requires Executing(v, c, p) && d in v.r[Slot(p)].dependents && d in todo
    ensures d < ROB_SIZE && d != Slot(p) && |v.r[d].loads| == LOADS == |v.r[d].added| == |v.r[d].lq|
    ensures MoreView(v, p, todo, d, 0) == PartView(v, p, todo)
  {
    OneHit(v.r, v.l, c, p, d, 0);
    DependentElsewhere(v.r, c, p, d);
    MoreFirst(v.r, v.l, p, todo, d);
  }

  lemma LastLoad(v: View, c: Core, p: nat, todo: set<nat>, d: nat)
    requires Executing(v, c, p) && d in v.r[Slot(p)].dependents && d < ROB_SIZE && d != Slot(p)
    ensures MoreView(v, p, todo, d, LOADS) == PartView(v, p, todo - {d})
  {
    forall x | 0 <= x < LQ_SIZE && v.l[x].producer == Some(p) ensures v.l[x].index < LOADS {
      WaiterSlot(v.r, v.l, c, p, x);
    }
    MoreLast(v.r, v.l, p, todo, d);
  }

  lemma NoneReleased(v: View, c: Core, p: nat)
    requires Executing(v, c, p)
    ensures var y := v.r[Slot(p)].sq;
      PartView(v, p, v.r[Slot(p)].dependents) ==
        v.(r := v.r[Slot(p) := OneLess(v.r[Slot(p)])], q := v.q[y := v.q[y].(executed := true)])
  {
    forall x | 0 <= x < LQ_SIZE && v.l[x].producer == Some(p) ensures v.l[x].rob in v.r[Slot(p)].dependents {
      WaiterSlot(v.r, v.l, c, p, x);
    }
    assert MoreLoads(v.l, p, v.r[Slot(p)].dependents, 0, 0) == v.l;
  }

  lemma AllReleased(v: View, p: nat)
    requires |v.r| == ROB_SIZE && v.r[Slot(p)].sq < |v.q|
    ensures PartView(v, p, {}) == DoneView(v, p)
  {
    assert PartSlots(v.r, p, {}) == DoneSlots(v.r, p);
    assert MoreLoads(v.l, p, {}, 0, 0) == DoneLoads(v.l, p);
  }

  // ----- The structure ----------------------------------------------------------------------

  class LoadStoreUnit {
    const rob: array<MemSlot>
    const lq: array<LqEntry>
    const sq: array<SqEntry>
    var head: nat
    var tail: nat
    var occupancy: nat
    var lqOccupancy: int
    var sqHead: nat
    var sqTail: nat
    var sqOccupancy: int
    /** The instructions whose stores are in the store queue, oldest first. */
    ghost var queue: seq<nat>
    /** The state of module LoadStore that it is in. */
    ghost var core: Core

    ghost function Contents(): View
      reads this, rob, lq, sq
    {
      View(rob[..], lq[..], sq[..], head, tail, occupancy, lqOccupancy, sqHead, sqTail, sqOccupancy, queue)
    }

    ghost predicate Valid()
      reads this, rob, lq, sq
    {
      Reached(core) && core in Shown(Contents())
    }

    constructor ()
      ensures Valid() && core == BOOT && fresh(rob) && fresh(lq) && fresh(sq)
    {
      rob := new MemSlot[ROB_SIZE](k => EMPTY_SLOT);
      lq := new LqEntry[LQ_SIZE](x => EMPTY_LOAD);
      sq := new SqEntry[SQ_SIZE](y => EMPTY_STORE);
      head, tail, occupancy, lqOccupancy, sqHead, sqTail, sqOccupancy := 0, 0, 0, 0, 0, 0, 0;
      queue, core := [], BOOT;
      new;
      ReachedBoot();
      assert Used(lq[..]) == {};
      assert forall i: nat :: Listed(queue, core, i);
    }

    /** `add_to_rob`: the instruction takes the slot at the tail. */
    method AddToRob(id: nat, loads: seq<nat>, store: nat)
      requires Valid() && occupancy < ROB_SIZE && |loads| == LOADS && id == |core.entry|
      modifies this`tail, this`occupancy, this`core, rob
      ensures Valid() && core == Dispatch(old(core), loads, store)
    {
      ghost var v, c := Contents(), core;
      DispatchShown(v, c, loads, store);
      rob[tail] := NewSlot(id, loads, store);
      tail := Next(tail);
      occupancy := occupancy + 1;
      core := Dispatch(c, loads, store);
      assert Contents() == v.(r := v.r[v.tail := NewSlot(id, loads, store)], tail := Next(v.tail),
                              occupancy := v.occupancy + 1);
    }

    /** `add_store_queue`: the store takes the place at the tail, which is empty. */
    method AddStoreQueue(k: nat)
      requires Valid() && k < ROB_SIZE && MayEnter(core, InstrAt(core.head, k)) && sqOccupancy < SQ_SIZE
      modifies this`sqTail, this`sqOccupancy, this`queue, this`core, rob, sq
      ensures Valid() && core == AddStore(old(core), InstrAt(old(core).head, k))
    {
      ghost var v, c, i := Contents(), core, InstrAt(core.head, k);
      AddStoreShown(v, c, i);
      assert sq[sqTail] == EMPTY_STORE;
      sq[sqTail] := SqEntry(rob[k].store, rob[k].id, k, false);
      rob[k] := rob[k].(queued := true, sq := sqTail);
      sqTail := NextStore(sqTail);
      sqOccupancy := sqOccupancy + 1;
      queue := queue + [i];
      core := AddStore(c, i);
      assert Contents() == WithStore(v, i);
    }

    /** The cache has answered the load in this slot of the load queue, which becomes free. */
    method CompleteDataFetch(x: nat)
      requires Valid() && x < LQ_SIZE && lq[x].address != 0 && lq[x].producer.None?
      modifies this`lqOccupancy, this`core, rob, lq
      ensures Valid() && core == Fetched(old(core), old(lq[x].id), old(lq[x].index))
    {
      ghost var v, c := Contents(), core;
      LoadSays(v, c, x);
      ghost var i, j := lq[x].id, lq[x].index;
      AnsweredShown(v, c, i, j);
      Answer(lq[x].rob, x);
      core := Fetched(c, i, j);
      assert Contents() == Answered(v, i, j);
    }

    /** The instruction in slot k has one operation less, and its load leaves the load queue. */
    method Answer(k: nat, x: nat)
      requires x < lq.Length && k < rob.Length
      modifies this`lqOccupancy, rob, lq
      ensures var w := old(Contents());
        Contents() == w.(r := w.r[k := OneLess(w.r[k])], l := w.l[x := EMPTY_LOAD], loads := w.loads - 1)
    {
      rob[k] := rob[k].(ops := rob[k].ops - 1);
      lq[x] := EMPTY_LOAD;
      lqOccupancy := lqOccupancy - 1;
    }

    /** An instruction that has not completed does so when none of its operations is left. */
    method CompleteExecution(k: nat)
      requires Valid() && k < ROB_SIZE && InWindow(core, InstrAt(core.head, k))
      requires rob[k].ops == 0 && !rob[k].completed
      modifies this`core, rob
      ensures Valid() && core == Complete(old(core), InstrAt(old(core).head, k))
    {
      ghost var v, c, i := Contents(), core, InstrAt(core.head, k);
      CompleteShown(v, c, i);
      rob[k] := rob[k].(completed := true);
      core := Complete(c, i);
      assert Contents() == v.(r := v.r[Slot(i) := v.r[Slot(i)].(completed := true)]);
    }

    /** `retire_rob`: the instruction at the head leaves, and its store leaves the head of the store queue. */
    method RetireHead()
      requires Valid() && occupancy > 0 && rob[head].completed
      modifies this`head, this`occupancy, this`sqHead, this`sqOccupancy, this`queue, this`core, rob, sq
      ensures Valid() && core == Retire(old(core))
    {
      ghost var v, c := Contents(), core;
      HeadSays(v, c);
      if rob[head].queued {
        RetireStoreShown(v, c);
        RetireStore();
        assert Contents() == RetiredStore(v);
      } else {
        RetireOtherShown(v, c);
        RetireSlot();
        assert Contents() == RetiredOther(v);
      }
      core := Retire(c);
    }

    method RetireSlot()
      requires head < rob.Length && occupancy > 0
      modifies this`head, this`occupancy, rob
      ensures rob[..] == old(rob[..])[old(head) := EMPTY_SLOT] && head == Next(old(head))
      ensures occupancy == old(occupancy) - 1
    {
      rob[head] := EMPTY_SLOT;
      head := Next(head);
      occupancy := occupancy - 1;
    }

    method RetireStore()
      requires head < rob.Length && occupancy > 0 && rob[head].sq == sqHead < sq.Length && queue != []
      modifies this`head, this`occupancy, this`sqHead, this`sqOccupancy, this`queue, rob, sq
      ensures Contents() == RetiredStore(old(Contents()))
    {
      sq[rob[head].sq] := EMPTY_STORE;
      sqOccupancy := sqOccupancy - 1;
      sqHead := NextStore(sqHead);
      queue := queue[1..];
      RetireSlot();
    }

    /** `execute_store`: the store of this place has executed, and the loads that wait for it get their data. */
    method ExecuteStoreAt(y: nat)
      requires Valid() && y < SQ_SIZE && sq[y].address != 0 && !sq[y].executed
      modifies this`lqOccupancy, this`core, rob, lq, sq
      ensures Valid() && WellFormed(old(core)) && old(sq[y].id) < |old(core).entry|
      ensures core == ExecuteStore(old(core), old(sq[y].id))
    {
      ghost var v, c, p := Contents(), core, sq[y].id;
      StoreSays(v, c, y);
      DoneShown(v, c, p);
      var k := sq[y].rob;
      MarkExecuted(k, y, v, c, p);
      ReleaseDependents(k, y, v, c, p);
      AllReleased(v, p);
      core := ExecuteStore(c, p);
    }

    method MarkExecuted(k: nat, y: nat, ghost v: View, ghost c: Core, ghost p: nat)
      requires Executing(v, c, p) && v == Contents() && k == Slot(p) && y == v.r[k].sq < |v.q|
      modifies rob, sq
      ensures Released(v, c, p, v.r[k].dependents)
    {
      NoneReleased(v, c, p);
      MarkStore(k, y);
    }

    method MarkStore(k: nat, y: nat)
      requires k < rob.Length && y < sq.Length
      modifies rob, sq
      ensures var w := old(Contents());
        Contents() == w.(r := w.r[k := OneLess(w.r[k])], q := w.q[y := w.q[y].(executed := true)])
    {
      sq[y] := sq[y].(executed := true);
      rob[k] := rob[k].(ops := rob[k].ops - 1);
    }

    method ReleaseDependents(k: nat, y: nat, ghost v: View, ghost c: Core, ghost p: nat)
      requires k == Slot(p) && k < |v.r| && Released(v, c, p, v.r[k].dependents) && y == v.r[k].sq
      requires v.q[y].id == p && v.q[y].address == v.r[k].store
      modifies this`lqOccupancy, rob, lq
      ensures Released(v, c, p, {})
    {
      assert rob[..][k] == PartSlots(v.r, p, v.r[k].dependents)[k];
      var todo := rob[k].dependents;
      while todo != {}
        invariant todo <= v.r[k].dependents && Released(v, c, p, todo)
        decreases |todo|
      {
        var d :| d in todo;
        ReleaseDependent(d, y, v, c, p, todo);
        todo := todo - {d};
      }
    }

    /** All dependents but those in the slots `todo` have been released. */
    ghost predicate Released(v: View, c: Core, p: nat, todo: set<nat>)
      reads this, rob, lq, sq
    {
      Executing(v, c, p) && Contents() == PartView(v, p, todo)
    }

    /** The loads of one dependent. */
    method ReleaseDependent(d: nat, y: nat, ghost v: View, ghost c: Core, ghost p: nat, ghost todo: set<nat>)
      requires Released(v, c, p, todo) && d in v.r[Slot(p)].dependents && d in todo && y == v.r[Slot(p)].sq
      requires v.q[y].id == p && v.q[y].address == v.r[Slot(p)].store
      modifies this`lqOccupancy, rob, lq
      ensures Released(v, c, p, todo - {d})
    {
      FirstLoad(v, c, p, todo, d);
      var j := 0;
      while j < LOADS
        invariant 0 <= j <= LOADS && Releasing(v, c, p, todo, d, j)
      {
        ReleaseLoad(d, j, y, v, c, p, todo);
        j := j + 1;
      }
      LastLoad(v, c, p, todo, d);
    }

    ghost predicate Releasing(v: View, c: Core, p: nat, todo: set<nat>, d: nat, j: nat)
      reads this, rob, lq, sq
    {
      Executing(v, c, p) && d < ROB_SIZE && Contents() == MoreView(v, p, todo, d, j)
    }

    /** One load of a dependent: it is released if it is in the queue with the address of the store, and
        then it waits for this very store. */
    method ReleaseLoad(d: nat, j: nat, y: nat, ghost v: View, ghost c: Core, ghost p: nat, ghost todo: set<nat>)
      requires Releasing(v, c, p, todo, d, j) && d in v.r[Slot(p)].dependents && d in todo && j < LOADS
      requires y == v.r[Slot(p)].sq && v.q[y].id == p && v.q[y].address == v.r[Slot(p)].store
      requires |v.r[d].loads| == LOADS == |v.r[d].added| == |v.r[d].lq|
      modifies this`lqOccupancy, rob, lq
      ensures Releasing(v, c, p, todo, d, j + 1)
    {
      assert rob[..][d] == MoreSlots(v.r, p, todo, d, j)[d];
      assert sq[..][y] == v.q[y].(executed := true);
      if rob[d].loads[j] != 0 && rob[d].added[j] && rob[d].loads[j] == sq[y].address {
        HitStep(v, c, p, todo, d, j);
        var x := rob[d].lq[j];
        assert lq[..][x].producer == Some(sq[y].id);
        Answer(lq[x].rob, x);
      } else {
        MissStep(v, c, p, todo, d, j);
      }
    }

    /** `mem_RAW_dependency`: bind the load to this older instruction if it stores to the load's address. */
    method MemRawDependency(prior: nat, current: nat, j: nat, x: nat)
      requires prior < rob.Length && current < rob.Length && x < lq.Length && j < |rob[current].loads|
      modifies rob, lq
      ensures if old(rob[prior].store) != 0 && old(rob[prior].store) == old(rob[current].loads[j]) then
          && rob[..] == old(rob[..])[prior := old(rob[prior]).(dependents := old(rob[prior].dependents) + {current})]
          && lq[..] == old(lq[..])[x := old(lq[x]).(producer := Some(old(rob[prior].id)))]
        else rob[..] == old(rob[..]) && lq[..] == old(lq[..])
    {
      if rob[prior].store != 0 && rob[prior].store == rob[current].loads[j] {
        rob[prior] := rob[prior].(dependents := rob[prior].dependents + {current});
        lq[x] := lq[x].(producer := Some(rob[prior].id));
      }
    }

    /** The search so far, as the arrays show it. */
    ghost predicate Looked(r0: seq<MemSlot>, l0: seq<LqEntry>, c: Core, n: nat, i: nat, j: nat, x: nat)
      reads rob, lq
    {
      && WellFormed(c) && c.head <= n <= i < |c.entry| <= c.head + ROB_SIZE && j < LOADS && c.entry[i].loads[j] != 0
      && (forall k: nat :: InWindow(c, k) && k <= i ==> SlotSays(r0, c, k))
      && rob.Length == ROB_SIZE && x < lq.Length == |l0| && l0[x].producer.None?
      && Searched(r0, l0, rob[..], lq[..], c, n, i, c.entry[i].loads[j], x)
    }

    /** Search the slots from `high` down to `low`, which hold consecutive instructions, until found. */
    method ScanDown(high: nat, low: nat, current: nat, j: nat, x: nat, ghost r0: seq<MemSlot>, ghost l0: seq<LqEntry>,
                    ghost c: Core, ghost m: nat, ghost n: nat, ghost i: nat)
      requires Looked(r0, l0, c, n, i, j, x) && current == Slot(i) && low <= high < ROB_SIZE
      requires c.head <= m < n <= i && n - m == high - low + 1 && high == Slot(n - 1)
      modifies rob, lq
      ensures Looked(r0, l0, c, m, i, j, x)
    {
      var k: int := high;
      ghost var at := n;
      while k >= low && lq[x].producer.None?
        invariant low - 1 <= k <= high && m <= at <= n && at - m == k - low + 1 && (k >= low ==> k == Slot(at - 1))
        invariant Looked(r0, l0, c, at, i, j, x)
      {
        Look(k, current, j, x, r0, l0, c, at, i);
        at := at - 1;
        if k > low {
          SlotNext(at);
        }
        k := k - 1;
      }
      if at > m {
        YoungestFound(c.entry, m, at, i, c.entry[i].loads[j]);
      }
    }

    /** Look at instruction at - 1, which is in slot k. */
    method Look(k: nat, current: nat, j: nat, x: nat, ghost r0: seq<MemSlot>, ghost l0: seq<LqEntry>, ghost c: Core,
                ghost at: nat, ghost i: nat)
      requires Looked(r0, l0, c, at, i, j, x) && current == Slot(i) && c.head < at && k == Slot(at - 1)
      requires lq[x].producer.None?
      modifies rob, lq
      ensures Looked(r0, l0, c, at - 1, i, j, x)
    {
      SearchStep(r0, l0, rob[..], lq[..], c, at, i, c.entry[i].loads[j], x);
      MemRawDependency(k, current, j, x);
    }

    /** Search the older instructions, wherever the window lies on the ring, for the youngest that stores to
        the address of the load. */
    method SearchProducer(current: nat, j: nat, x: nat, ghost r0: seq<MemSlot>, ghost l0: seq<LqEntry>, ghost c: Core,
                          ghost i: nat)
      requires Looked(r0, l0, c, i, i, j, x) && current == Slot(i) && head == Slot(c.head)
      modifies rob, lq
      ensures Looked(r0, l0, c, c.head, i, j, x)
    {
      var prior: int := current - 1;
      if prior < 0 {
        prior := ROB_SIZE - 1;
      }
      if current != head {
        Stretch(c.head, i);
        if head <= prior {
          ScanDown(prior, head, current, j, x, r0, l0, c, c.head, i, i);
        } else {
          ScanDown(prior, 0, current, j, x, r0, l0, c, i - (prior + 1), i, i);
          ScanDown(ROB_SIZE - 1, head, current, j, x, r0, l0, c, c.head, i - (prior + 1), i);
        }
      } else {
        SameSlot(c.head, i);
      }
    }

    /** The first free slot of the load queue. */
    method FindFree() returns (x: nat)
      requires lq.Length == LQ_SIZE && |Used(lq[..])| < LQ_SIZE
      ensures x < LQ_SIZE && lq[x].address == 0
    {
      FreeExists(lq[..]);
      x := 0;
      while x < LQ_SIZE && lq[x].address != 0
        invariant x <= LQ_SIZE && forall y :: 0 <= y < x ==> lq[..][y].address != 0
      {
        x := x + 1;
      }
    }

    /** The place in the store queue of the store that produces the load's value, if it is there. */
    method FindForward(current: nat, x: nat) returns (f: nat)
      requires x < lq.Length && sq.Length == SQ_SIZE
      ensures FoundAt(sq[..], head, current, lq[x], f)
    {
      f := 0;
      while f < SQ_SIZE
        invariant f <= SQ_SIZE
        invariant current == head || forall y :: 0 <= y < f ==> !Forwards(sq[..][y], lq[x])
      {
        if sq[f].address != 0 && sq[f].address == lq[x].address && current != head && lq[x].producer == Some(sq[f].id) {
          return;
        }
        f := f + 1;
      }
    }

    /** `add_load_queue`: the load takes a free slot, is bound to the youngest older store of its address,
        and is served at once if that store has executed. */
    method AddLoadQueue(k: nat, j: nat)
      requires Valid() && k < ROB_SIZE && InWindow(core, InstrAt(core.head, k)) && j < LOADS && lqOccupancy < LQ_SIZE
      requires |rob[k].loads| == LOADS == |rob[k].added| && rob[k].loads[j] != 0 && !rob[k].added[j]
      modifies this`lqOccupancy, this`core, rob, lq
      ensures Valid() && WellFormed(old(core)) && InstrAt(old(core).head, k) < |old(core).entry|
      ensures core == AddLoad(old(core), InstrAt(old(core).head, k), j)
    {
      ghost var v, c, i := Contents(), core, InstrAt(core.head, k);
      LoadToEnter(v, c, k, j);
      var x := FindFree();
      AddLoadShown(v, c, i, j, x);
      EnterLoad(k, j, x, v, c, i);
      core := AddLoad(c, i, j);
    }

    /** The load enters at slot x, and leaves it again if it is served at once. */
    method EnterLoad(k: nat, j: nat, x: nat, ghost v: View, ghost c: Core, ghost i: nat)
      requires v == Contents() && c in Shown(v) && Reached(c) && WellFormed(c) && InWindow(c, i) && k == Slot(i)
      requires j < LOADS
      requires |v.r| == ROB_SIZE && |v.r[k].added| == LOADS == |v.r[k].lq| && x < |v.l| && v.l[x] == EMPTY_LOAD
      requires |rob[k].loads| == LOADS && rob[k].loads == c.entry[i].loads && rob[k].id == i && c.entry[i].loads[j] != 0
      modifies this`lqOccupancy, rob, lq
      ensures var r := BoundSlots(v.r, ProducerOf(c, i, j), i);
        && |r[Slot(i)].added| == LOADS == |r[Slot(i)].lq|
        && Contents() ==
             EnteredView(v.(r := r), i, j, x, LqEntry(c.entry[i].loads[j], i, Slot(i), j, ProducerOf(c, i, j)),
                         NewState(c, ProducerOf(c, i, j)).Released?)
    {
      ghost var p := ProducerOf(c, i, j);
      BindLoad(k, j, x, v, c, i);
      ghost var w := Contents();
      if p.Some? {
        SlotApart(p.value, i);
      }
      EnteredArrays(v, w.r, w.l, p, i, j, x, LqEntry(c.entry[i].loads[j], i, k, j, p), NewState(c, p).Released?);
      var released := IsServed(k, j, x, v, c, i);
      FinishLoad(k, j, x, released, v);
    }

    /** Put the load in the free slot and bind it. */
    method BindLoad(k: nat, j: nat, x: nat, ghost v: View, ghost c: Core, ghost i: nat)
      requires v == Contents() && c in Shown(v) && InWindow(c, i) && k == Slot(i) && j < LOADS && x < |v.l|
      requires |rob[k].loads| == LOADS && rob[k].loads == c.entry[i].loads && rob[k].id == i && c.entry[i].loads[j] != 0
      modifies this`lqOccupancy, rob, lq
      ensures WellFormed(c) && |v.r| == ROB_SIZE
      ensures Contents() == v.(
        r := BoundSlots(v.r, ProducerOf(c, i, j), i), loads := v.loads + 1,
        l := WithProducer(v.l[x := LqEntry(c.entry[i].loads[j], i, k, j, None)], x, ProducerOf(c, i, j)))
    {
      var e := LqEntry(rob[k].loads[j], rob[k].id, k, j, None);
      SearchStart(v, c, i, j, x, e);
      lq[x] := e;
      lqOccupancy := lqOccupancy + 1;
      SearchProducer(k, j, x, v.r, v.l[x := e], c, i);
    }

    /** Whether the store that the load is bound to has executed. */
    method IsServed(k: nat, j: nat, x: nat, ghost v: View, ghost c: Core, ghost i: nat) returns (released: bool)
      requires c in Shown(v) && Reached(c) && InWindow(c, i) && k == Slot(i) && j < LOADS && x < lq.Length
      requires sq[..] == v.q && head == v.head && WellFormed(c)
      requires lq[x].address == c.entry[i].loads[j] != 0 && lq[x].producer == ProducerOf(c, i, j)
      ensures released == NewState(c, ProducerOf(c, i, j)).Released?
    {
      var f := FindForward(k, x);
      ForwardMeans(v, c, i, j, lq[x], f);
      released := f < SQ_SIZE && sq[f].executed;
    }

    /** The load has entered; if it is served at once, it leaves its slot again. */
    method FinishLoad(k: nat, j: nat, x: nat, released: bool, ghost v: View)
      requires k < rob.Length && j < |rob[k].added| && j < |rob[k].lq| && x < lq.Length
      requires Contents() == v.(r := rob[..], l := lq[..], loads := v.loads + 1)
      modifies this`lqOccupancy, rob, lq
      ensures Contents() == FinishedView(v, old(rob[..]), old(lq[..]), k, j, x, released)
    {
      rob[k] := rob[k].(lq := rob[k].lq[j := x]);
      if released {
        rob[k] := rob[k].(ops := rob[k].ops - 1);
        lq[x] := EMPTY_LOAD;
        lqOccupancy := lqOccupancy - 1;
      }
      rob[k] := rob[k].(added := rob[k].added[j := true]);
    }
  }
}
