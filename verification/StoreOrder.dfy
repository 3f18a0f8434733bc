/** The store address ring in front of the store queue: a store enters the queue only when the ring says that
    it is the oldest that has not, and so stores enter in program order.

    Instructions have at most one store here.  The ring holds the stores of all instructions that have been
    read, dispatched or not, and that have not entered the store queue. */
module StoreOrder {
  import opened CoreConfig
  import opened LoadStore
  import opened LoadQueues
  import opened Rings
  import Pipeline = PipelineOrder

  // ----- What the ring says of the core -----------------------------------------------------

  ghost predicate HasStore(c: Core, i: nat) {
    InWindow(c, i) && c.entry[i].store != 0
  }

  /** The ring holds, in program order, the stores that have not entered; those in the buffer that have are older. */
  ghost predicate Awaited(c: Core, ids: seq<nat>) {
    && (forall a, b :: 0 <= a < b < |ids| ==> ids[a] < ids[b])
    && (forall x :: x in ids ==> x >= |c.entry| || (HasStore(c, x) && !c.entry[x].inQueue))
    && (forall i: nat :: HasStore(c, i) && !c.entry[i].inQueue ==> i in ids)
    && (forall i: nat, x :: HasStore(c, i) && c.entry[i].inQueue && x in ids ==> i < x)
  }

  /** The store at the head of the ring, if it is in the buffer, may enter; and no other may. */
  lemma HeadMayEnter(c: Core, ids: seq<nat>, i: nat)
    requires Reached(c) && Awaited(c, ids) && HasStore(c, i) && !c.entry[i].inQueue
    ensures ids != [] && (ids[0] == i <==> forall k: nat :: HasStore(c, k) && k < i ==> c.entry[k].inQueue)
    ensures ids[0] == i ==> MayEnter(c, i)
  {
    ReachedKeeps(c);
    assert EntryOk(c, i);
    HeadIsLeast(ids);
    OnlyStoresEnter(c);
    assert ids[0] in ids;
  }

  lemma HeadIsLeast(ids: seq<nat>)
    requires forall a, b :: 0 <= a < b < |ids| ==> ids[a] < ids[b]
    ensures forall x :: x in ids ==> ids[0] <= x
  {}

  /** Only instructions with a store are in the store queue. */
  lemma OnlyStoresEnter(c: Core)
    requires Reached(c)
    ensures forall i: nat :: InWindow(c, i) && c.entry[i].inQueue ==> c.entry[i].store != 0
  {
    var events, cores :| LeadsTo(events, cores, c);
    QueuedHaveStores(events, cores, |events|);
  }

  lemma {:induction false} QueuedHaveStores(events: seq<Event>, cores: seq<Core>, n: nat)
    requires IsRun(events, cores) && n <= |events|
    ensures forall i :: 0 <= i < |cores[n].entry| && cores[n].entry[i].inQueue ==> cores[n].entry[i].store != 0
  {
    if n > 0 {
      QueuedHaveStores(events, cores, n - 1);
      StoresStay(cores[n - 1], events[n - 1], cores[n]);
    }
  }

  lemma StoresStay(c: Core, e: Event, c': Core)
    requires Enabled(c, e) && c' == Step(c, e)
    requires forall i :: 0 <= i < |c.entry| && c.entry[i].inQueue ==> c.entry[i].store != 0
    ensures forall i :: 0 <= i < |c'.entry| && c'.entry[i].inQueue ==> c'.entry[i].store != 0
  {
    if e.LoadEnters? {
      forall k | 0 <= k < |c.entry|
        ensures c'.entry[k].store == c.entry[k].store && c'.entry[k].inQueue == c.entry[k].inQueue
      {
        AddLoadShape(c, e.i, e.j, k);
      }
    }
  }

  // ----- The steps keep it ------------------------------------------------------------------

  /** A step that neither dispatches, nor lets a store enter, nor retires. */
  predicate Inner(e: Event) {
    e.LoadEnters? || e.StoreExecutes? || e.CacheAnswers? || e.CompleteOne?
  }

  lemma InnerKeeps(c: Core, e: Event, ids: seq<nat>)
    requires Enabled(c, e) && Inner(e) && Awaited(c, ids)
    ensures Awaited(Step(c, e), ids)
  {
    var c' := Step(c, e);
    forall k | 0 <= k < |c.entry|
      ensures c'.entry[k].store == c.entry[k].store && c'.entry[k].inQueue == c.entry[k].inQueue
    {
      if e.LoadEnters? {
        AddLoadShape(c, e.i, e.j, k);
      }
    }
    assert forall i: nat :: HasStore(c', i) <==> HasStore(c, i);
  }

  lemma ReadKeeps(c: Core, ids: seq<nat>, id: nat)
    requires Awaited(c, ids) && id >= |c.entry| && forall x :: x in ids ==> x < id
    ensures Awaited(c, ids + [id])
  {
    assert forall a :: 0 <= a < |ids| ==> ids[a] in ids;
  }

  lemma DispatchKeepsAwaited(c: Core, ids: seq<nat>, loads: seq<nat>, store: nat)
    requires WellFormed(c) && Awaited(c, ids) && |loads| == LOADS && c.head <= |c.entry|
    requires store != 0 <==> |c.entry| in ids
    ensures Awaited(Dispatch(c, loads, store), ids)
  {
    var c' := Dispatch(c, loads, store);
    assert forall i: nat :: HasStore(c', i) <==> HasStore(c, i) || (i == |c.entry| && store != 0);
  }

  lemma EnterKeeps(c: Core, ids: seq<nat>, i: nat)
    requires WellFormed(c) && Awaited(c, ids) && HasStore(c, i) && ids != [] && ids[0] == i
    ensures Awaited(AddStore(c, i), ids[1..])
  {
    var c' := AddStore(c, i);
    assert forall k: nat :: HasStore(c', k) <==> HasStore(c, k);
    forall x | x in ids && x != i ensures x in ids[1..] {
      var a :| 0 <= a < |ids| && ids[a] == x;
      assert ids[1..][a - 1] == x;
    }
  }

  /** A retiring instruction has completed, so its store has entered. */
  lemma RetireKeepsAwaited(c: Core, ids: seq<nat>)
    requires Reached(c) && Awaited(c, ids) && c.head < |c.entry| && c.entry[c.head].completed
    ensures Awaited(Retire(c), ids)
  {
    ReachedKeeps(c);
    assert EntryOk(c, c.head);
    var c' := Retire(c);
    assert forall k: nat :: HasStore(c', k) <==> HasStore(c, k) && k != c.head;
  }

  /** Distinct numbers in a range are no more than it is long. */
  lemma {:induction false} SortedBound(ids: seq<nat>, low: nat, high: nat)
    requires forall a, b :: 0 <= a < b < |ids| ==> ids[a] < ids[b]
    requires low <= high && forall x :: x in ids ==> low <= x < high
    ensures |ids| <= high - low
  {
    if ids != [] {
      var n := |ids| - 1;
      assert ids[n] in ids;
      forall x | x in ids[..n] ensures low <= x < ids[n] {
        var a :| 0 <= a < n && ids[..n][a] == x;
        assert x in ids && ids[a] < ids[n];
      }
      SortedBound(ids[..n], low, ids[n]);
    }
  }

  // ----- The structure ----------------------------------------------------------------------

  class OrderedUnit {
    const unit: LoadStoreUnit
    const sta: Ring

    ghost predicate Valid()
      reads this, unit, unit.rob, unit.lq, unit.sq, sta, sta.place
    {
      && unit.Valid() && sta.Valid()
      && sta.place.Length == Pipeline.STA_SIZE && sta.free == Pipeline.NO_INSTRUCTION
      && Awaited(unit.core, sta.contents)
    }

    constructor ()
      ensures Valid() && unit.core == BOOT && sta.contents == []
      ensures fresh(unit) && fresh(unit.rob) && fresh(unit.lq) && fresh(unit.sq) && fresh(sta) && fresh(sta.place)
    {
      unit := new LoadStoreUnit();
      sta := new Ring(Pipeline.STA_SIZE, Pipeline.NO_INSTRUCTION);
    }

    /** An instruction with a store is read: its place at the tail is free, because no more instructions are in
        flight than the pipeline holds. */
    method ReadStore(id: nat)
      requires Valid() && |unit.core.entry| <= id < unit.core.head + Pipeline.IN_FLIGHT && id != Pipeline.NO_INSTRUCTION
      requires forall x :: x in sta.contents ==> x < id
      modifies sta`tail, sta`contents, sta.place
      ensures Valid() && sta.contents == old(sta.contents) + [id]
    {
      SortedBound(sta.contents, unit.core.head, unit.core.head + Pipeline.IN_FLIGHT);
      ReadKeeps(unit.core, sta.contents, id);
      sta.Push(id);
    }

    /** The next instruction is dispatched; its store, if it has one, has been read. */
    method AddToRob(id: nat, loads: seq<nat>, store: nat)
      requires Valid() && unit.occupancy < ROB_SIZE && |loads| == LOADS && id == |unit.core.entry|
      requires store != 0 <==> id in sta.contents
      modifies unit`tail, unit`occupancy, unit`core, unit.rob
      ensures Valid() && unit.core == Dispatch(old(unit.core), loads, store)
    {
      WindowOrder(unit.core);
      DispatchKeepsAwaited(unit.core, sta.contents, loads, store);
      unit.AddToRob(id, loads, store);
    }

    /** A store whose instruction is ready tries to enter: it does exactly when all older stores have. */
    method AddStoreQueue(k: nat) returns (entered: bool)
      requires Valid() && k < ROB_SIZE && HasStore(unit.core, InstrAt(unit.core.head, k))
      requires !unit.core.entry[InstrAt(unit.core.head, k)].inQueue && unit.sqOccupancy < SQ_SIZE
      modifies unit`sqTail, unit`sqOccupancy, unit`queue, unit`core, unit.rob, unit.sq, sta`head, sta`contents,
        sta.place
      ensures Valid()
      ensures var c, i := old(unit.core), InstrAt(old(unit.core).head, k);
        && (entered <==> forall a: nat :: HasStore(c, a) && a < i ==> c.entry[a].inQueue)
        && WellFormed(c) && unit.core == if entered then AddStore(c, i) else c
    {
      ghost var c, i := unit.core, InstrAt(unit.core.head, k);
      HeadMayEnter(c, sta.contents, i);
      SlotId(unit.Contents(), c, k);
      var oldest := sta.Peek();
      entered := oldest == unit.rob[k].id;
      if entered {
        EnterKeeps(c, sta.contents, i);
        sta.Pop();
        unit.AddStoreQueue(k);
      }
    }

    /** The instruction at the head retires. */
    method RetireHead()
      requires Valid() && unit.occupancy > 0 && unit.rob[unit.head].completed
      modifies unit, unit.rob, unit.sq
      ensures Valid() && unit.core == Retire(old(unit.core))
    {
      HeadSays(unit.Contents(), unit.core);
      RetireKeepsAwaited(unit.core, sta.contents);
      unit.RetireHead();
    }
  }

  lemma WindowOrder(c: Core)
    requires Reached(c)
    ensures WellFormed(c) && c.head <= |c.entry|
  {
    ReachedKeeps(c);
  }

  lemma SlotId(v: View, c: Core, k: nat)
    requires c in Shown(v) && k < ROB_SIZE && InWindow(c, InstrAt(c.head, k))
    ensures |v.r| == ROB_SIZE && v.r[k].id == InstrAt(c.head, k) && WellFormed(c)
  {
    assert SlotOk(v.r[k], c, InstrAt(c.head, k));
  }
}
