/** How much of the load queue and of the store queue is taken, in terms of the state machine of module
    LoadStore. */
module Occupancy {
  import opened Common
  import opened CoreConfig
  import opened LoadStore
  import opened LoadQueues

  /** A number for load j of instruction i. */
  function LoadNumber(i: nat, j: nat): nat {
    LOADS * i + j
  }

  /** The loads that hold a slot of the load queue. */
  ghost function LoadsHeld(c: Core): set<nat> {
    set x | 0 <= x < LOADS * |c.entry| && Live(c, x / LOADS, x % LOADS)
  }

  /** The instructions whose stores hold a place of the store queue. */
  ghost function StoresHeld(c: Core): set<nat> {
    set i | 0 <= i < |c.entry| && InWindow(c, i) && c.entry[i].inQueue
  }

  /** The store of i is the oldest that has not entered. */
  ghost predicate InTurn(c: Core, i: nat) {
    forall k: nat :: InWindow(c, k) && k < i && c.entry[k].store != 0 ==> c.entry[k].inQueue
  }

  /** Stores in the queue are the oldest. */
  ghost predicate OldestIn(c: Core) {
    forall i: nat :: InWindow(c, i) && c.entry[i].inQueue ==> InTurn(c, i)
  }

  // ----- What the queues hold ---------------------------------------------------------------

  /** The load queue slots in use are the loads held, and the store queue holds the stores held. */
  lemma HeldInQueues(v: View, c: Core)
    requires c in Shown(v)
    ensures v.loads == |LoadsHeld(c)| && v.stores == |StoresHeld(c)|
  {
    LoadsCount(v, c);
    StoresCount(v, c);
  }

  lemma LoadsCount(v: View, c: Core)
    requires c in Shown(v)
    ensures |Used(v.l)| == |LoadsHeld(c)|
  {
    var named := map x: nat | x in Used(v.l) :: LoadNumber(v.l[x].id, v.l[x].index);
    forall x | x in named ensures named[x] in LoadsHeld(c) && Holder(v, named[x]) == x {
      UsedHeld(v, c, x);
    }
    forall y | y in LoadsHeld(c) ensures y in named.Values {
      HeldUsed(v, c, y);
      assert named[Holder(v, y)] == y;
    }
    assert LoadsHeld(c) == named.Values && Used(v.l) == named.Keys;
    SameSize(named);
  }

  lemma UsedHeld(v: View, c: Core, x: nat)
    requires c in Shown(v) && x in Used(v.l)
    ensures var y := LoadNumber(v.l[x].id, v.l[x].index); y in LoadsHeld(c) && Holder(v, y) == x
  {
    assert Owned(v.r, v.l, c, x);
    NumberSplit(v.l[x].id, v.l[x].index);
  }

  lemma HeldUsed(v: View, c: Core, y: nat)
    requires c in Shown(v) && y in LoadsHeld(c)
    ensures Holder(v, y) in Used(v.l)
    ensures LoadNumber(v.l[Holder(v, y)].id, v.l[Holder(v, y)].index) == y
  {
    assert LoadAt(v.r, v.l, c, y / LOADS, y % LOADS);
    NumberJoin(y);
  }

  lemma StoresCount(v: View, c: Core)
    requires c in Shown(v)
    ensures |v.queue| == |StoresHeld(c)|
  {
    assert forall i :: i in StoresHeld(c) ==> Listed(v.queue, c, i);
    assert forall k :: 0 <= k < |v.queue| ==> StoreIn(v.r, v.q, Around(v.sqHead, k, SQ_SIZE), c, v.queue[k]);
    assert StoresHeld(c) == set k | 0 <= k < |v.queue| :: v.queue[k];
    ListSize(v.queue);
  }

  /** The slot of the load with this number. */
  ghost function Holder(v: View, y: nat): nat {
    if |v.r| != ROB_SIZE then 0 else
    var lq := v.r[Slot(y / LOADS)].lq;
    if y % LOADS < |lq| then lq[y % LOADS] else 0
  }

  lemma NumberSplit(i: nat, j: nat)
    requires j < LOADS
    ensures LoadNumber(i, j) / LOADS == i && LoadNumber(i, j) % LOADS == j
  {}

  lemma NumberJoin(x: nat)
    ensures LoadNumber(x / LOADS, x % LOADS) == x
  {}

  /** A one-to-one map has as many keys as values. */
  lemma {:induction false} SameSize(m: map<nat, nat>)
    requires forall x, y :: x in m && y in m && m[x] == m[y] ==> x == y
    ensures |m.Keys| == |m.Values|
  {
    if m != map[] {
      var x :| x in m;
      var rest := m - {x};
      SameSize(rest);
      assert m.Keys == rest.Keys + {x} && m.Values == rest.Values + {m[x]};
    }
  }

  lemma {:induction false} ListSize(q: seq<nat>)
    requires forall k, l :: 0 <= k < l < |q| ==> q[k] < q[l]
    ensures |set k | 0 <= k < |q| :: q[k]| == |q|
  {
    if q != [] {
      var rest := q[..|q| - 1];
      ListSize(rest);
      assert (set k | 0 <= k < |q| :: q[k]) == (set k | 0 <= k < |rest| :: rest[k]) + {q[|q| - 1]};
    }
  }

  lemma {:induction false} IntervalSize(s: set<nat>, low: nat, high: nat)
    requires low <= high && forall k: nat :: k in s <==> low <= k < high
    ensures |s| == high - low
    decreases high
  {
    if low < high {
      IntervalSize(s - {high - 1}, low, high - 1);
    } else {
      assert s == {};
    }
  }
}
