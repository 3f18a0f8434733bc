/** Loads, stores and store-to-load forwarding in the out-of-order core.

    Instructions are named by their program order and have up to four loads and one store.  A load is
    bound, when it enters the load queue, to the youngest older store of its address in the buffer.
    Main results, over every interleaving: a load goes to the cache only if no older store in the buffer
    has its address; any other is released exactly once, by the youngest such store, whichever of the
    two comes first; and the internal checks on producers and operation counts hold. */
module LoadStore {

  import opened Common
  import opened CoreConfig

  const LOADS: nat := 4

  /** A load: not in the queue yet, waiting for a store, sent to the cache, or released, and by whom. */
  datatype LoadState = Outside | Waiting(store: nat) | Sent | Released(source: Option<nat>)

  /** Addresses are nonzero; 0 stands for no load or store.  `dependents` are the instructions with a
      load that was bound to this store; `pending` counts memory operations that are not done. */
  datatype Entry = Entry(loads: seq<nat>, store: nat, state: seq<LoadState>, inQueue: bool, done: bool,
                         dependents: set<nat>, pending: int, completed: bool)

  /** All instructions dispatched so far; those from head on are in the buffer. */
  datatype Core = Core(entry: seq<Entry>, head: nat)

  const BOOT := Core([], 0)

  predicate WellFormed(c: Core) {
    forall i :: 0 <= i < |c.entry| ==> |c.entry[i].loads| == LOADS == |c.entry[i].state|
  }

  // ----- Which store a load depends on ------------------------------------------------------

  /** The youngest of the instructions low .. i - 1 that stores to the address. */
  function Youngest(s: seq<Entry>, low: nat, i: nat, address: nat): (p: Option<nat>)
    requires i <= |s|
    ensures p.Some? ==> low <= p.value < i && s[p.value].store == address
    ensures forall k :: low <= k < i && (p.Some? ==> p.value < k) ==> s[k].store != address
  {
    if i <= low then None else if s[i - 1].store == address then Some(i - 1) else Youngest(s, low, i - 1, address)
  }

  // ----- Steps ------------------------------------------------------------------------------

  function Operations(loads: seq<nat>, store: nat): nat
    requires |loads| == LOADS
  {
    One(loads[0] != 0) + One(loads[1] != 0) + One(loads[2] != 0) + One(loads[3] != 0) + One(store != 0)
  }

  function Dispatch(c: Core, loads: seq<nat>, store: nat): Core
    requires |loads| == LOADS
  {
    c.(entry := c.entry + [Entry(loads, store, [Outside, Outside, Outside, Outside], false, false, {},
                                 Operations(loads, store), false)])
  }

  /** The state of a load that enters the queue and depends on p. */
  function NewState(c: Core, p: Option<nat>): LoadState
    requires p.Some? ==> p.value < |c.entry|
  {
    if p.None? then Sent else if c.entry[p.value].done then Released(p) else Waiting(p.value)
  }

  function Entered(c: Core, e: Entry, j: nat, p: Option<nat>): Entry
    requires |e.state| == LOADS && j < LOADS && (p.Some? ==> p.value < |c.entry|)
  {
    var state := NewState(c, p);
    e.(state := e.state[j := state], pending := if state.Released? then e.pending - 1 else e.pending)
  }

  function Bound(s: seq<Entry>, p: Option<nat>, i: nat): (s': seq<Entry>)
    requires p.Some? ==> p.value < |s|
    ensures |s'| == |s|
  {
    if p.None? then s else s[p.value := s[p.value].(dependents := s[p.value].dependents + {i})]
  }

  /** `add_load_queue`: bind the load to its store; it goes to the cache if there is none, and is served
      at once if the store has executed. */
  function AddLoad(c: Core, i: nat, j: nat): (c': Core)
    requires WellFormed(c) && i < |c.entry| && j < LOADS
    ensures WellFormed(c') && |c'.entry| == |c.entry|
  {
    var p := Youngest(c.entry, c.head, i, c.entry[i].loads[j]);
    c.(entry := Bound(c.entry, p, i)[i := Entered(c, c.entry[i], j, p)])
  }

  function AddStore(c: Core, i: nat): (c': Core)
    requires WellFormed(c) && i < |c.entry|
    ensures WellFormed(c') && |c'.entry| == |c.entry|
  {
    c.(entry := c.entry[i := c.entry[i].(inQueue := true)])
  }

  /** The load is in the queue with the address of the store. */
  predicate Matches(e: Entry, j: nat, address: nat)
    requires j < |e.loads| == |e.state|
  {
    e.loads[j] != 0 && e.state[j] != Outside && e.loads[j] == address
  }

  /** A dependent instruction when store p executes. */
  function Forward(e: Entry, address: nat, p: nat): (e': Entry)
    requires |e.loads| == LOADS == |e.state|
    ensures |e'.loads| == LOADS == |e'.state|
  {
    e.(state := seq(LOADS, j requires 0 <= j < LOADS =>
         if Matches(e, j, address) then Released(Some(p)) else e.state[j]),
       pending := e.pending - One(Matches(e, 0, address)) - One(Matches(e, 1, address)) - One(Matches(e, 2, address))
                            - One(Matches(e, 3, address)))
  }

  /** `execute_store`: the store is done, and its dependent loads get their data. */
  function ExecuteStore(c: Core, p: nat): (c': Core)
    requires WellFormed(c) && p < |c.entry|
    ensures WellFormed(c') && |c'.entry| == |c.entry|
  {
    var s := c.entry[p];
    c.(entry := seq(|c.entry|, i requires 0 <= i < |c.entry| =>
      if i == p then s.(done := true, pending := s.pending - 1)
      else if i in s.dependents then Forward(c.entry[i], s.store, p) else c.entry[i]))
  }

  /** The cache has answered a load that was sent. */
  function Fetched(c: Core, i: nat, j: nat): (c': Core)
    requires WellFormed(c) && i < |c.entry| && j < LOADS
    ensures WellFormed(c') && |c'.entry| == |c.entry|
  {
    var e := c.entry[i];
    c.(entry := c.entry[i := e.(state := e.state[j := Released(None)], pending := e.pending - 1)])
  }

  function Complete(c: Core, i: nat): (c': Core)
    requires WellFormed(c) && i < |c.entry|
    ensures WellFormed(c') && |c'.entry| == |c.entry|
  {
    c.(entry := c.entry[i := c.entry[i].(completed := true)])
  }

  function Retire(c: Core): Core {
    c.(head := c.head + 1)
  }

  // ----- The invariant ----------------------------------------------------------------------

  /** Load j of instruction i: the store it depends on, if there still is one in the buffer, decides
      its state. */
  ghost predicate LoadOk(c: Core, i: nat, j: nat)
    requires WellFormed(c) && i < |c.entry| && j < LOADS
  {
    var e := c.entry[i];
    var y := Youngest(c.entry, c.head, i, e.loads[j]);
    && (e.loads[j] == 0 ==> e.state[j] == Outside)
    && (e.state[j] != Outside && y.Some? ==>
         && e.state[j] == (if c.entry[y.value].done then Released(y) else Waiting(y.value))
         && i in c.entry[y.value].dependents)
    && (y.None? ==> !e.state[j].Waiting?)
  }

  ghost predicate Unfinished(e: Entry, j: nat)
    requires j < |e.loads| == |e.state|
  {
    e.loads[j] != 0 && !e.state[j].Released?
  }

  /** The operations of an instruction that are not done. */
  ghost function Remaining(e: Entry): nat
    requires |e.loads| == LOADS == |e.state|
  {
    One(Unfinished(e, 0)) + One(Unfinished(e, 1)) + One(Unfinished(e, 2)) + One(Unfinished(e, 3)) +
    One(e.store != 0 && !e.done)
  }

  ghost predicate EntryOk(c: Core, i: nat)
    requires WellFormed(c) && i < |c.entry|
  {
    var e := c.entry[i];
    && e.pending == Remaining(e)
    && (e.done ==> e.store != 0 && e.inQueue)
    && (e.completed ==> e.pending == 0)
    && (i < c.head ==> e.completed)
  }

  /** Dependents are younger, and have no younger store to the same address before them. */
  ghost predicate BoundOk(c: Core, p: nat, i: nat)
    requires p < |c.entry|
  {
    && p < i < |c.entry| && c.entry[p].store != 0
    && forall k :: p < k < i ==> c.entry[k].store != c.entry[p].store
  }

  ghost predicate Inv(c: Core) {
    && WellFormed(c) && c.head <= |c.entry| <= c.head + ROB_SIZE
    && (forall i :: 0 <= i < |c.entry| ==> EntryOk(c, i))
    && (forall i, j :: 0 <= i < |c.entry| && 0 <= j < LOADS ==> LoadOk(c, i, j))
    && (forall p, i :: 0 <= p < |c.entry| && i in c.entry[p].dependents ==> BoundOk(c, p, i))
  }

  // ----- Frames -----------------------------------------------------------------------------

  /** Which store a load depends on is a matter of the stores in the program alone. */
  lemma {:induction false} YoungestSame(s: seq<Entry>, s': seq<Entry>, low: nat, i: nat, address: nat)
    requires i <= |s| && i <= |s'| && forall k :: 0 <= k < i ==> s'[k].store == s[k].store
    ensures Youngest(s', low, i, address) == Youngest(s, low, i, address)
  {
    if low < i {
      YoungestSame(s, s', low, i - 1, address);
    }
  }

  /** With the dependent's own state unchanged and no new dependence, its loads stay right if its stores
      only gain dependents. */
  lemma LoadKept(c: Core, c': Core, i: nat, j: nat)
    requires WellFormed(c) && WellFormed(c') && i < |c.entry| <= |c'.entry| && j < LOADS && c'.head == c.head
    requires LoadOk(c, i, j)
    requires c'.entry[i].loads == c.entry[i].loads && c'.entry[i].state == c.entry[i].state
    requires forall k :: 0 <= k < i ==>
      && c'.entry[k].store == c.entry[k].store && c'.entry[k].done == c.entry[k].done
      && c.entry[k].dependents <= c'.entry[k].dependents
    ensures LoadOk(c', i, j)
  {
    YoungestSame(c.entry, c'.entry, c.head, i, c.entry[i].loads[j]);
  }

  lemma BoundKept(c: Core, c': Core, p: nat, i: nat)
    requires p < |c.entry| <= |c'.entry| && BoundOk(c, p, i)
    requires forall k :: 0 <= k < |c.entry| ==> c'.entry[k].store == c.entry[k].store
    ensures BoundOk(c', p, i)
  {}

  // ----- The steps keep it ------------------------------------------------------------------

  lemma DispatchKeeps(c: Core, loads: seq<nat>, store: nat)
    requires Inv(c) && |loads| == LOADS && |c.entry| < c.head + ROB_SIZE
    ensures Inv(Dispatch(c, loads, store))
  {
    var c' := Dispatch(c, loads, store);
    forall i | 0 <= i < |c'.entry| ensures EntryOk(c', i) {
      if i < |c.entry| {
        assert EntryOk(c, i);
      }
    }
    forall i, j | 0 <= i < |c'.entry| && 0 <= j < LOADS ensures LoadOk(c', i, j) {
      if i < |c.entry| {
        LoadKept(c, c', i, j);
      }
    }
    forall p, i | 0 <= p < |c'.entry| && i in c'.entry[p].dependents ensures BoundOk(c', p, i) {
      BoundKept(c, c', p, i);
    }
  }

  /** One entry changes, but neither its store nor the state of its loads, nor whether it is done. */
  lemma OneEntryKeeps(c: Core, i: nat, e: Entry)
    requires Inv(c) && i < |c.entry| && e == c.entry[i].(inQueue := e.inQueue, completed := e.completed)
    requires (e.done ==> e.inQueue) && (c.entry[i].completed ==> e.completed) && (e.completed ==> e.pending == 0)
    ensures Inv(c.(entry := c.entry[i := e]))
  {
    var c' := c.(entry := c.entry[i := e]);
    forall k | 0 <= k < |c'.entry| ensures EntryOk(c', k) {
      assert EntryOk(c, k);
    }
    forall k, j | 0 <= k < |c'.entry| && 0 <= j < LOADS ensures LoadOk(c', k, j) {
      LoadKept(c, c', k, j);
    }
    forall p, k | 0 <= p < |c'.entry| && k in c'.entry[p].dependents ensures BoundOk(c', p, k) {
      BoundKept(c, c', p, k);
    }
  }

  /** A load enters the queue: what changes in an entry. */
  lemma AddLoadShape(c: Core, i: nat, j: nat, k: nat)
    requires WellFormed(c) && i < |c.entry| && j < LOADS && k < |c.entry|
    ensures var e := c.entry[k];
      var p := Youngest(c.entry, c.head, i, c.entry[i].loads[j]);
      AddLoad(c, i, j).entry[k] == if k == i then Entered(c, e, j, p)
        else if p == Some(k) then e.(dependents := e.dependents + {i}) else e
  {}

  lemma AddLoadLoads(c: Core, i: nat, j: nat, k: nat, l: nat)
    requires Inv(c) && i < |c.entry| && j < LOADS && c.entry[i].loads[j] != 0 && c.entry[i].state[j] == Outside
    requires k < |c.entry| && l < LOADS
    ensures LoadOk(AddLoad(c, i, j), k, l)
  {
    var c' := AddLoad(c, i, j);
    assert LoadOk(c, k, l);
    AddLoadShape(c, i, j, k);
    forall m | 0 <= m < k
      ensures c'.entry[m].store == c.entry[m].store && c'.entry[m].done == c.entry[m].done
      ensures c.entry[m].dependents <= c'.entry[m].dependents
      ensures Some(m) == Youngest(c.entry, c.head, i, c.entry[i].loads[j]) ==> i in c'.entry[m].dependents
    {
      AddLoadShape(c, i, j, m);
    }
    YoungestSame(c.entry, c'.entry, c.head, k, c.entry[k].loads[l]);
  }

  lemma AddLoadEntry(c: Core, i: nat, j: nat, k: nat)
    requires Inv(c) && i < |c.entry| && j < LOADS && c.entry[i].loads[j] != 0 && c.entry[i].state[j] == Outside
    requires k < |c.entry|
    ensures EntryOk(AddLoad(c, i, j), k)
  {
    var e, e' := c.entry[k], AddLoad(c, i, j).entry[k];
    assert EntryOk(c, k);
    AddLoadShape(c, i, j, k);
    forall l | 0 <= l < LOADS
      ensures Unfinished(e', l) == (Unfinished(e, l) && !(k == i && l == j && e'.state[j].Released?))
    {}
  }

  lemma AddLoadKeeps(c: Core, i: nat, j: nat)
    requires Inv(c) && i < |c.entry| && j < LOADS && c.entry[i].loads[j] != 0 && c.entry[i].state[j] == Outside
    ensures Inv(AddLoad(c, i, j))
  {
    var c' := AddLoad(c, i, j);
    forall k | 0 <= k < |c'.entry| ensures EntryOk(c', k) {
      AddLoadEntry(c, i, j, k);
    }
    forall k, l | 0 <= k < |c'.entry| && 0 <= l < LOADS ensures LoadOk(c', k, l) {
      AddLoadLoads(c, i, j, k, l);
    }
    forall p, k | 0 <= p < |c'.entry| && k in c'.entry[p].dependents ensures BoundOk(c', p, k) {
      if k in c.entry[p].dependents {
        BoundKept(c, c', p, k);
      }
    }
  }

  lemma {:induction false} YoungestIs(s: seq<Entry>, low: nat, p: nat, i: nat)
    requires low <= p < i <= |s| && forall k :: p < k < i ==> s[k].store != s[p].store
    ensures Youngest(s, low, i, s[p].store) == Some(p)
  {
    if p < i - 1 {
      YoungestIs(s, low, p, i - 1);
    }
  }

  /** A dependent's load in the queue with the store's address waits for this very store: the sanity
      check of `execute_store`. */
  lemma ProducerMatches(c: Core, p: nat, i: nat, j: nat)
    requires Inv(c) && c.head <= p < |c.entry| && !c.entry[p].done && i in c.entry[p].dependents && i < |c.entry|
    requires j < LOADS && Matches(c.entry[i], j, c.entry[p].store)
    ensures c.entry[i].state[j] == Waiting(p)
  {
    assert BoundOk(c, p, i) && LoadOk(c, i, j);
    YoungestIs(c.entry, c.head, p, i);
  }

  /** Conversely, a load that waits for the store is among its dependents and has its address. */
  lemma WaiterIsDependent(c: Core, p: nat, i: nat, j: nat)
    requires Inv(c) && i < |c.entry| && j < LOADS && c.entry[i].state[j] == Waiting(p)
    ensures p < i && c.head <= p && i in c.entry[p].dependents && Matches(c.entry[i], j, c.entry[p].store)
    ensures Youngest(c.entry, c.head, i, c.entry[i].loads[j]) == Some(p)
  {
    assert LoadOk(c, i, j);
  }

  lemma ExecuteLoads(c: Core, p: nat, i: nat, j: nat)
    requires Inv(c) && c.head <= p < |c.entry| && c.entry[p].store != 0 && !c.entry[p].done
    requires i < |c.entry| && j < LOADS
    ensures LoadOk(ExecuteStore(c, p), i, j)
  {
    var c' := ExecuteStore(c, p);
    var e := c.entry[i];
    assert LoadOk(c, i, j);
    YoungestSame(c.entry, c'.entry, c.head, i, e.loads[j]);
    if i in c.entry[p].dependents && Matches(e, j, c.entry[p].store) {
      ProducerMatches(c, p, i, j);
      WaiterIsDependent(c, p, i, j);
      assert BoundOk(c, p, i);
    }
    if e.state[j] == Waiting(p) {
      WaiterIsDependent(c, p, i, j);
    }
  }

  lemma ExecuteEntry(c: Core, p: nat, i: nat)
    requires Inv(c) && c.head <= p < |c.entry| && c.entry[p].store != 0 && c.entry[p].inQueue && !c.entry[p].done
    requires i < |c.entry|
    ensures EntryOk(ExecuteStore(c, p), i)
  {
    var e, e' := c.entry[i], ExecuteStore(c, p).entry[i];
    assert EntryOk(c, i);
    if i in c.entry[p].dependents {
      assert BoundOk(c, p, i);
      forall j | 0 <= j < LOADS
        ensures Unfinished(e', j) == (Unfinished(e, j) && !Matches(e, j, c.entry[p].store))
        ensures Matches(e, j, c.entry[p].store) ==> Unfinished(e, j)
      {
        if Matches(e, j, c.entry[p].store) {
          ProducerMatches(c, p, i, j);
        }
      }
    }
  }

  lemma ExecuteStoreKeeps(c: Core, p: nat)
    requires Inv(c) && c.head <= p < |c.entry| && c.entry[p].store != 0 && c.entry[p].inQueue && !c.entry[p].done
    ensures Inv(ExecuteStore(c, p))
  {
    var c' := ExecuteStore(c, p);
    forall i | 0 <= i < |c'.entry| ensures EntryOk(c', i) {
      ExecuteEntry(c, p, i);
    }
    forall i, j | 0 <= i < |c'.entry| && 0 <= j < LOADS ensures LoadOk(c', i, j) {
      ExecuteLoads(c, p, i, j);
    }
    forall q, i | 0 <= q < |c'.entry| && i in c'.entry[q].dependents ensures BoundOk(c', q, i) {
      BoundKept(c, c', q, i);
    }
  }

  lemma FetchedKeeps(c: Core, i: nat, j: nat)
    requires Inv(c) && i < |c.entry| && j < LOADS && c.entry[i].state[j] == Sent
    ensures Inv(Fetched(c, i, j))
  {
    var c' := Fetched(c, i, j);
    forall k | 0 <= k < |c'.entry| ensures EntryOk(c', k) {
      assert EntryOk(c, k) && LoadOk(c, i, j);
      forall l | 0 <= l < LOADS
        ensures Unfinished(c'.entry[k], l) == (Unfinished(c.entry[k], l) && !(k == i && l == j)) {}
    }
    forall k, l | 0 <= k < |c'.entry| && 0 <= l < LOADS ensures LoadOk(c', k, l) {
      assert LoadOk(c, k, l);
      YoungestSame(c.entry, c'.entry, c.head, k, c.entry[k].loads[l]);
    }
    forall p, k | 0 <= p < |c'.entry| && k in c'.entry[p].dependents ensures BoundOk(c', p, k) {
      BoundKept(c, c', p, k);
    }
  }

  lemma {:induction false} YoungestUp(s: seq<Entry>, low: nat, i: nat, address: nat)
    requires i <= |s|
    ensures Youngest(s, low + 1, i, address) ==
      if Youngest(s, low, i, address) == Some(low) then None else Youngest(s, low, i, address)
  {
    if low < i {
      YoungestUp(s, low, i - 1, address);
    }
  }

  lemma RetireKeeps(c: Core)
    requires Inv(c) && c.head < |c.entry| && c.entry[c.head].completed
    ensures Inv(Retire(c))
  {
    var c' := Retire(c);
    assert EntryOk(c, c.head);
    forall i | 0 <= i < |c'.entry| ensures EntryOk(c', i) {
      assert EntryOk(c, i);
    }
    forall i, j | 0 <= i < |c'.entry| && 0 <= j < LOADS ensures LoadOk(c', i, j) {
      assert LoadOk(c, i, j);
      YoungestUp(c.entry, c.head, i, c.entry[i].loads[j]);
    }
    forall p, i | 0 <= p < |c'.entry| && i in c'.entry[p].dependents ensures BoundOk(c', p, i) {
      BoundKept(c, c', p, i);
    }
  }

  // ----- Whole runs -------------------------------------------------------------------------

  datatype Event =
    | DispatchOne(loads: seq<nat>, store: nat)
    | LoadEnters(i: nat, j: nat)
    | StoreEnters(i: nat)
    | StoreExecutes(p: nat)
    | CacheAnswers(i: nat, j: nat)
    | CompleteOne(i: nat)
    | RetireOne

  /** What the program checks before each step. */
  predicate Enabled(c: Core, e: Event) {
    WellFormed(c) &&
    match e
    case DispatchOne(loads, _) => |loads| == LOADS && |c.entry| < c.head + ROB_SIZE
    case LoadEnters(i, j) => c.head <= i < |c.entry| && j < LOADS && c.entry[i].loads[j] != 0 &&
      c.entry[i].state[j] == Outside
    case StoreEnters(i) => c.head <= i < |c.entry| && c.entry[i].store != 0 && !c.entry[i].inQueue
    case StoreExecutes(p) => c.head <= p < |c.entry| && c.entry[p].store != 0 && c.entry[p].inQueue && !c.entry[p].done
    case CacheAnswers(i, j) => c.head <= i < |c.entry| && j < LOADS && c.entry[i].state[j] == Sent
    case CompleteOne(i) => c.head <= i < |c.entry| && c.entry[i].pending == 0 && !c.entry[i].completed
    case RetireOne => c.head < |c.entry| && c.entry[c.head].completed
  }

  function Step(c: Core, e: Event): Core
    requires Enabled(c, e)
  {
    match e
    case DispatchOne(loads, store) => Dispatch(c, loads, store)
    case LoadEnters(i, j) => AddLoad(c, i, j)
    case StoreEnters(i) => AddStore(c, i)
    case StoreExecutes(p) => ExecuteStore(c, p)
    case CacheAnswers(i, j) => Fetched(c, i, j)
    case CompleteOne(i) => Complete(c, i)
    case RetireOne => Retire(c)
  }

  lemma StepKeeps(c: Core, e: Event)
    requires Inv(c) && Enabled(c, e)
    ensures Inv(Step(c, e))
  {
    match e
    case DispatchOne(loads, store) => DispatchKeeps(c, loads, store);
    case LoadEnters(i, j) => AddLoadKeeps(c, i, j);
    case StoreEnters(i) =>
      assert EntryOk(c, i);
      OneEntryKeeps(c, i, c.entry[i].(inQueue := true));
    case StoreExecutes(p) => ExecuteStoreKeeps(c, p);
    case CacheAnswers(i, j) => FetchedKeeps(c, i, j);
    case CompleteOne(i) =>
      assert EntryOk(c, i);
      OneEntryKeeps(c, i, c.entry[i].(completed := true));
    case RetireOne => RetireKeeps(c);
  }

  /** The cores that a run of enabled events passes through. */
  ghost predicate IsRun(events: seq<Event>, cores: seq<Core>) {
    && |cores| == |events| + 1 && cores[0] == BOOT
    && forall n :: 0 <= n < |events| ==> Enabled(cores[n], events[n]) && cores[n + 1] == Step(cores[n], events[n])
  }

  lemma {:induction false} ReachableInv(events: seq<Event>, cores: seq<Core>, n: nat)
    requires IsRun(events, cores) && n <= |events|
    ensures Inv(cores[n])
  {
    if n > 0 {
      ReachableInv(events, cores, n - 1);
      StepKeeps(cores[n - 1], events[n - 1]);
    }
  }

  // ----- The main results -------------------------------------------------------------------

  /** p is the youngest store to the address among the instructions older than i in the buffer. */
  ghost predicate YoungestStore(c: Core, p: nat, i: nat, address: nat)
    requires i < |c.entry|
  {
    c.head <= p < i && c.entry[p].store == address && forall k :: p < k < i ==> c.entry[k].store != address
  }

  /** A load goes to the cache only if no older store in the buffer has its address; a load with such a
      store waits for the youngest of them, or has been released by it, if that store has executed. */
  lemma ForwardedByYoungest(events: seq<Event>, cores: seq<Core>, n: nat, i: nat, j: nat)
    requires IsRun(events, cores) && n <= |events| && WellFormed(cores[n]) && i < |cores[n].entry| && j < LOADS
    requires cores[n].entry[i].state[j] != Outside
    ensures var c := cores[n];
      var e := c.entry[i];
      && (e.state[j] == Sent ==> forall p :: c.head <= p < i ==> c.entry[p].store != e.loads[j])
      && (forall p: nat :: YoungestStore(c, p, i, e.loads[j]) ==>
           e.state[j] == if c.entry[p].done then Released(Some(p)) else Waiting(p))
  {
    var c := cores[n];
    ReachableInv(events, cores, n);
    assert LoadOk(c, i, j);
    forall p: nat | YoungestStore(c, p, i, c.entry[i].loads[j])
      ensures Youngest(c.entry, c.head, i, c.entry[i].loads[j]) == Some(p)
    {
      YoungestIs(c.entry, c.head, p, i);
    }
  }

  lemma Settled(c: Core, e: Event, i: nat, j: nat)
    requires Inv(c) && Enabled(c, e) && i < |c.entry| && j < LOADS && c.entry[i].state[j].Released?
    ensures var c' := Step(c, e);
      i < |c'.entry| && j < |c'.entry[i].state| && c'.entry[i].state[j] == c.entry[i].state[j]
  {
    if e.StoreExecutes? && i in c.entry[e.p].dependents && Matches(c.entry[i], j, c.entry[e.p].store) {
      ProducerMatches(c, e.p, i, j);
    }
  }

  /** A load is released at most once: who released it never changes. */
  lemma {:induction false} ReleasedOnce(events: seq<Event>, cores: seq<Core>, m: nat, n: nat, i: nat, j: nat)
    requires IsRun(events, cores) && m <= n <= |events| && WellFormed(cores[m]) && i < |cores[m].entry| && j < LOADS
    requires cores[m].entry[i].state[j].Released?
    ensures i < |cores[n].entry| && j < |cores[n].entry[i].state|
    ensures cores[n].entry[i].state[j] == cores[m].entry[i].state[j]
  {
    if m < n {
      var k := n - 1;
      ReleasedOnce(events, cores, m, k, i, j);
      SettledAt(events, cores, k, n, i, j);
    }
  }

  lemma SettledAt(events: seq<Event>, cores: seq<Core>, n: nat, n': nat, i: nat, j: nat)
    requires IsRun(events, cores) && n < |events| && n' == n + 1 && i < |cores[n].entry|
    requires j < LOADS && j < |cores[n].entry[i].state| && cores[n].entry[i].state[j].Released?
    ensures i < |cores[n'].entry| && j < |cores[n'].entry[i].state|
    ensures cores[n'].entry[i].state[j] == cores[n].entry[i].state[j]
  {
    ReachableInv(events, cores, n);
    Settled(cores[n], events[n], i, j);
  }

  /** The operation count of an instruction is exact and never negative, so it completes exactly when
      its store is done and all its loads are released. */
  lemma CountExact(events: seq<Event>, cores: seq<Core>, n: nat, i: nat)
    requires IsRun(events, cores) && n <= |events| && WellFormed(cores[n]) && i < |cores[n].entry|
    ensures var e := cores[n].entry[i];
      && e.pending == Remaining(e) >= 0
      && (e.pending == 0 <==>
            (e.store != 0 ==> e.done) && forall j :: 0 <= j < LOADS && e.loads[j] != 0 ==> e.state[j].Released?)
  {
    ReachableInv(events, cores, n);
    assert EntryOk(cores[n], i);
    var e := cores[n].entry[i];
    if e.pending == 0 {
      forall j | 0 <= j < LOADS && e.loads[j] != 0 ensures e.state[j].Released? {
        assert !Unfinished(e, j);
      }
    }
  }

  /** When a store executes, every dependent load in the queue with its address waits for this store and
      for no other. */
  lemma ChecksHold(events: seq<Event>, cores: seq<Core>, n: nat, i: nat, j: nat)
    requires IsRun(events, cores) && n < |events| && events[n].StoreExecutes? && Enabled(cores[n], events[n])
    requires var c := cores[n];
      i in c.entry[events[n].p].dependents && i < |c.entry| && j < LOADS &&
        Matches(c.entry[i], j, c.entry[events[n].p].store)
    ensures cores[n].entry[i].state[j] == Waiting(events[n].p)
  {
    ReachableInv(events, cores, n);
    ProducerMatches(cores[n], events[n].p, i, j);
  }
}
