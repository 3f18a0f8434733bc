/** The out-of-order core as a whole: register dependencies and memory operations of the same instructions, with
    the sizes of the load queue, the store queue and the scheduling window.

    A memory instruction enters its loads and its store only when its registers are ready, loads of older ready
    instructions first, stores in program order; and it starts once all have entered. */
module WholeCore {
  import opened Common
  import opened CoreConfig
  import opened Occupancy
  import Registers
  import LoadStore
  import LoadQueues
  import RegisterProgress

  const LOADS: nat := LoadStore.LOADS
  const SOURCES: nat := Registers.SOURCES
  const LQ_SIZE: nat := LoadQueues.LQ_SIZE
  const SQ_SIZE: nat := LoadQueues.SQ_SIZE

  /** The same instructions, as far as registers go and as far as memory goes. */
  datatype Machine = Machine(regs: Registers.Core, mem: LoadStore.Core)

  const BOOT := Machine(Registers.BOOT, LoadStore.BOOT)

  // ----- Steps ------------------------------------------------------------------------------

  datatype Event =
    | DispatchOne(sources: seq<nat>, dests: seq<nat>, loads: seq<nat>, store: nat)
    | ScheduleOne
    | ExecuteOne(zero: bool)
    | LoadEnters(i: nat, j: nat)
    | StoreEnters(i: nat)
    | StartMemory(i: nat)
    | StoreExecutes(p: nat)
    | CacheAnswers(i: nat, j: nat)
    | CompleteOne(i: nat, order: seq<nat>)
    | RetireOne

  predicate IsMemory(loads: seq<nat>, store: nat) {
    store != 0 || exists j :: 0 <= j < |loads| && loads[j] != 0
  }

  /** What the step does to registers, and what to memory operations. */
  function RegEvent(e: Event): Option<Registers.Event> {
    match e
    case DispatchOne(sources, dests, loads, store) =>
      Some(Registers.DispatchOne(sources, dests, IsMemory(loads, store)))
    case ScheduleOne => Some(Registers.ScheduleOne)
    case ExecuteOne(zero) => Some(Registers.ExecuteOne(zero))
    case StartMemory(i) => Some(Registers.StartMemory(i))
    case CompleteOne(i, order) => Some(Registers.CompleteOne(i, order))
    case RetireOne => Some(Registers.RetireOne)
    case _ => None
  }

  function MemEvent(e: Event): Option<LoadStore.Event> {
    match e
    case DispatchOne(_, _, loads, store) => Some(LoadStore.DispatchOne(loads, store))
    case LoadEnters(i, j) => Some(LoadStore.LoadEnters(i, j))
    case StoreEnters(i) => Some(LoadStore.StoreEnters(i))
    case StoreExecutes(p) => Some(LoadStore.StoreExecutes(p))
    case CacheAnswers(i, j) => Some(LoadStore.CacheAnswers(i, j))
    case CompleteOne(i, _) => Some(LoadStore.CompleteOne(i))
    case RetireOne => Some(LoadStore.RetireOne)
    case _ => None
  }

  /** The registers of a memory instruction are ready, and it has not started. */
  predicate MayOperate(c: Registers.Core, i: nat) {
    i < |c.entry| && c.entry[i].memory && c.entry[i].ready && c.entry[i].scheduled == Registers.Inflight
  }

  predicate LoadIn(e: LoadStore.Entry, j: nat)
    requires j < |e.loads| && j < |e.state|
  {
    e.loads[j] != 0 ==> e.state[j] != LoadStore.Outside
  }

  predicate LoadsIn(e: LoadStore.Entry)
    requires |e.loads| == LOADS == |e.state|
  {
    forall j :: 0 <= j < LOADS ==> LoadIn(e, j)
  }

  /** All operations of the instruction have entered. */
  predicate AllIn(e: LoadStore.Entry)
    requires |e.loads| == LOADS == |e.state|
  {
    LoadsIn(e) && (e.store != 0 ==> e.inQueue)
  }

  /** The loads before load j of instruction i, of older instructions that may operate and its own, have entered. */
  ghost predicate First(m: Machine, i: nat, j: nat)
    requires LoadStore.WellFormed(m.mem) && i < |m.mem.entry| && j < LOADS
  {
    && (forall k :: m.mem.head <= k < i && MayOperate(m.regs, k) ==> LoadsIn(m.mem.entry[k]))
    && (forall l :: 0 <= l < j ==> LoadIn(m.mem.entry[i], l))
  }

  /** A cycle of scheduling looks at so many slots from the head on, and not beyond the end of the ring. */
  predicate InReach(head: nat, next: nat) {
    next < head + SCHEDULER_SIZE && Slot(head) <= Slot(next)
  }

  /** What the program checks before the step. */
  ghost predicate Possible(m: Machine, e: Event) {
    && LoadStore.WellFormed(m.mem)
    && (RegEvent(e).Some? ==> Registers.Enabled(m.regs, RegEvent(e).value))
    && (MemEvent(e).Some? ==> LoadStore.Enabled(m.mem, MemEvent(e).value))
    && match e
       case ScheduleOne => InReach(m.regs.head, m.regs.next)
       case LoadEnters(i, j) => MayOperate(m.regs, i) && |LoadsHeld(m.mem)| < LQ_SIZE && First(m, i, j)
       case StoreEnters(i) => MayOperate(m.regs, i) && |StoresHeld(m.mem)| < SQ_SIZE && InTurn(m.mem, i)
       case StartMemory(i) => i < |m.mem.entry| && AllIn(m.mem.entry[i])
       case _ => true
  }

  ghost function Step(m: Machine, e: Event): Machine
    requires Possible(m, e)
  {
    Machine(if RegEvent(e).Some? then Registers.Step(m.regs, RegEvent(e).value) else m.regs,
            if MemEvent(e).Some? then LoadStore.Step(m.mem, MemEvent(e).value) else m.mem)
  }

  /** The machines that possible steps lead through, from the first. */
  ghost predicate Path(events: seq<Event>, ms: seq<Machine>) {
    && |ms| == |events| + 1
    && forall n :: 0 <= n < |events| ==> Possible(ms[n], events[n]) && ms[n + 1] == Step(ms[n], events[n])
  }

  ghost predicate Leads(m: Machine, events: seq<Event>, ms: seq<Machine>, m': Machine) {
    Path(events, ms) && ms[0] == m && ms[|events|] == m'
  }

  /** Possible steps lead from the empty core to this one. */
  ghost predicate Attained(m: Machine) {
    exists events, ms :: Leads(BOOT, events, ms, m)
  }

  lemma AttainedBoot()
    ensures Attained(BOOT)
  {
    assert Leads(BOOT, [], [BOOT], BOOT);
  }

  lemma AttainedStep(m: Machine, e: Event)
    requires Attained(m) && Possible(m, e)
    ensures Attained(Step(m, e))
  {
    var events, ms :| Leads(BOOT, events, ms, m);
    var m' := Step(m, e);
    PathLast(events, ms, e, m');
    assert Leads(BOOT, events + [e], ms + [m'], m');
  }

  lemma PathLast(events: seq<Event>, ms: seq<Machine>, e: Event, m': Machine)
    requires Path(events, ms) && Possible(ms[|events|], e) && m' == Step(ms[|events|], e)
    ensures Path(events + [e], ms + [m'])
  {}

  // ----- What a step changes ----------------------------------------------------------------

  /** Registers of instruction k. */
  lemma RegFrame(c: Registers.Core, e: Registers.Event, k: nat)
    requires Registers.Inv(c, {}) && Registers.Enabled(c, e) && k < |c.entry|
    ensures var c' := Registers.Step(c, e);
      && |c.entry| <= |c'.entry| && Registers.WellFormed(c) && Registers.WellFormed(c')
      && c'.next == c.next + One(e.ScheduleOne?)
      && c'.head == c.head + One(e.RetireOne?)
      && c'.entry[k].memory == c.entry[k].memory
      && (!e.ScheduleOne? || k != c.next ==> c'.entry[k].producers == c.entry[k].producers)
      && (e.CompleteOne? && k == e.p ==> c'.entry[k].executed == Registers.Completed)
      && (!(e.CompleteOne? && k == e.p) ==>
            (c'.entry[k].executed == Registers.Completed <==> c.entry[k].executed == Registers.Completed))
      && (!e.ExecuteOne? && !(e.StartMemory? && k == e.i) && !e.CompleteOne? ==>
            c'.entry[k].executed == c.entry[k].executed)
      && (e.CompleteOne? && k != e.p ==> c'.entry[k].executed == c.entry[k].executed)
      && (e.ExecuteOne? && c.entry[k].memory ==> c'.entry[k].executed == c.entry[k].executed)
  {
    match e
    case CompleteOne(p, order) =>
      RegisterProgress.ReleaseAllSame(Registers.MarkCompleted(c, p), p, order);
    case ExecuteOne(zero) => Registers.RingHead(c, zero);
    case _ =>
  }

  /** An instruction that has been scheduled is ready exactly when all its producers have completed. */
  lemma ReadyMeans(c: Registers.Core, k: nat)
    requires Registers.Inv(c, {}) && k < c.next
    ensures k < |c.entry| && |c.entry[k].producers| == SOURCES
    ensures forall j :: 0 <= j < SOURCES && c.entry[k].producers[j].Some? ==> c.entry[k].producers[j].value < k
    ensures c.entry[k].ready <==> forall j :: 0 <= j < SOURCES && c.entry[k].producers[j].Some? ==>
      c.entry[c.entry[k].producers[j].value].executed == Registers.Completed
  {
    assert Registers.ScheduledOk(c, k, {});
    forall j | 0 <= j < SOURCES && c.entry[k].producers[j].Some?
      ensures Registers.Blocked(c, k, j, {}) <==>
        c.entry[c.entry[k].producers[j].value].executed != Registers.Completed
    {}
  }

  /** An instruction that is not scheduled has done nothing. */
  lemma UnscheduledIdle(c: Registers.Core, k: nat)
    requires Registers.Inv(c, {}) && c.next <= k < |c.entry|
    ensures c.entry[k].executed == Registers.Idle && !c.entry[k].ready
  {
    assert Registers.FreshOk(c.entry[k]);
  }

  /** An instruction that is ready stays so. */
  lemma ReadyStays(c: Registers.Core, e: Registers.Event, k: nat)
    requires Registers.Inv(c, {}) && Registers.Enabled(c, e) && k < |c.entry| && c.entry[k].ready
    ensures k < |Registers.Step(c, e).entry| && Registers.Step(c, e).entry[k].ready
  {
    var c' := Registers.Step(c, e);
    if k >= c.next {
      UnscheduledIdle(c, k);
    }
    Registers.StepKeeps(c, e, c');
    ReadyMeans(c, k);
    RegFrame(c, e, k);
    ReadyMeans(c', k);
    forall j | 0 <= j < SOURCES && c.entry[k].producers[j].Some?
      ensures c'.entry[c.entry[k].producers[j].value].executed == Registers.Completed
    {
      RegFrame(c, e, c.entry[k].producers[j].value);
    }
  }

  /** How a load of instruction k can change. */
  predicate LoadMoves(e: LoadStore.Event, k: nat, j: nat, s: LoadStore.LoadState, s': LoadStore.LoadState) {
    || s' == s
    || (e == LoadStore.LoadEnters(k, j) && s == LoadStore.Outside && s' != LoadStore.Outside)
    || (e.StoreExecutes? && s == LoadStore.Waiting(e.p) && s' == LoadStore.Released(Some(e.p)))
    || (e == LoadStore.CacheAnswers(k, j) && s == LoadStore.Sent && s' == LoadStore.Released(None))
  }

  /** Memory operations of instruction k. */
  lemma MemFrame(c: LoadStore.Core, e: LoadStore.Event, k: nat)
    requires LoadStore.Inv(c) && LoadStore.Enabled(c, e) && k < |c.entry|
    ensures var c' := LoadStore.Step(c, e);
      && |c'.entry| == |c.entry| + One(e.DispatchOne?) && LoadStore.WellFormed(c')
      && c'.head == c.head + One(e.RetireOne?)
      && c'.entry[k].loads == c.entry[k].loads && c'.entry[k].store == c.entry[k].store
      && c'.entry[k].inQueue == (c.entry[k].inQueue || e == LoadStore.StoreEnters(k))
      && c'.entry[k].done == (c.entry[k].done || e == LoadStore.StoreExecutes(k))
      && c'.entry[k].completed == (c.entry[k].completed || e == LoadStore.CompleteOne(k))
      && forall j :: 0 <= j < LOADS ==> LoadMoves(e, k, j, c.entry[k].state[j], c'.entry[k].state[j])
  {
    match e
    case LoadEnters(i, j) => LoadStore.AddLoadShape(c, i, j, k);
    case StoreExecutes(p) => ForwardFrame(c, p, k);
    case _ =>
  }

  lemma ForwardFrame(c: LoadStore.Core, p: nat, k: nat)
    requires LoadStore.Inv(c) && LoadStore.Enabled(c, LoadStore.StoreExecutes(p)) && k < |c.entry|
    ensures var c' := LoadStore.ExecuteStore(c, p);
      forall j :: 0 <= j < LOADS ==>
        || c'.entry[k].state[j] == c.entry[k].state[j]
        || (c.entry[k].state[j] == LoadStore.Waiting(p) && c'.entry[k].state[j] == LoadStore.Released(Some(p)))
  {
    if k in c.entry[p].dependents {
      assert LoadStore.BoundOk(c, p, k);
      forall j | 0 <= j < LOADS && LoadStore.Matches(c.entry[k], j, c.entry[p].store)
        ensures c.entry[k].state[j] == LoadStore.Waiting(p)
      {
        LoadStore.ProducerMatches(c, p, k, j);
      }
    }
  }

  // ----- The invariant ----------------------------------------------------------------------

  /** The two views of one instruction agree. */
  ghost predicate Agree(r: Registers.Entry, q: LoadStore.Entry) {
    && |q.loads| == LOADS == |q.state|
    && (r.memory <==> IsMemory(q.loads, q.store))
    && (r.executed == Registers.Completed <==> q.completed)
    && ((exists j :: 0 <= j < LOADS && q.state[j] != LoadStore.Outside) || q.inQueue ==> r.ready)
    && (r.memory && r.executed != Registers.Idle ==> AllIn(q))
    && (q.inQueue ==> q.store != 0)
  }

  ghost predicate Coupled(m: Machine) {
    && |m.regs.entry| == |m.mem.entry| && m.regs.head == m.mem.head && m.regs.next <= m.regs.head + SCHEDULER_SIZE
    && forall k :: 0 <= k < |m.mem.entry| ==> Agree(m.regs.entry[k], m.mem.entry[k])
  }

  ghost predicate Roomy(c: LoadStore.Core) {
    OldestIn(c) && |LoadsHeld(c)| <= LQ_SIZE && |StoresHeld(c)| <= SQ_SIZE
  }

  ghost predicate Inv(m: Machine) {
    Registers.Inv(m.regs, {}) && LoadStore.Inv(m.mem) && Coupled(m) && Roomy(m.mem)
  }

  /** The machines that satisfy the invariant. */
  ghost function Sound(): iset<Machine> {
    iset m: Machine | Inv(m)
  }

  lemma NewAgrees(m: Machine, e: Event)
    requires Possible(m, e) && e.DispatchOne? && |m.regs.entry| == |m.mem.entry|
    ensures var m' := Step(m, e);
      && |m'.regs.entry| == |m'.mem.entry| == |m.mem.entry| + 1
      && Agree(m'.regs.entry[|m.mem.entry|], m'.mem.entry[|m.mem.entry|])
  {}

  lemma AgreeMoved(r: Registers.Entry, r': Registers.Entry, q: LoadStore.Entry, q': LoadStore.Entry)
    requires Agree(r, q) && r'.memory == r.memory && q'.loads == q.loads && q'.store == q.store && |q'.state| == LOADS
    requires (r.ready ==> r'.ready) && (r'.executed == Registers.Completed <==> q'.completed)
    requires (q.inQueue ==> q'.inQueue) && (q'.inQueue ==> q.inQueue || (r'.ready && q.store != 0))
    requires forall j :: 0 <= j < LOADS ==>
      && (q'.state[j] == LoadStore.Outside ==> q.state[j] == LoadStore.Outside)
      && (q'.state[j] != LoadStore.Outside ==> q.state[j] != LoadStore.Outside || r'.ready)
    requires r.memory && r'.executed != Registers.Idle ==> r.executed != Registers.Idle || AllIn(q)
    ensures Agree(r', q')
  {
    if r.memory && r'.executed != Registers.Idle {
      forall j | 0 <= j < LOADS ensures LoadIn(q', j) {
        assert LoadIn(q, j);
      }
    }
  }

  lemma AgreeKept(m: Machine, e: Event, k: nat)
    requires m in Sound() && Possible(m, e) && k < |m.mem.entry|
    ensures var m' := Step(m, e);
      k < |m'.mem.entry| && k < |m'.regs.entry| && Agree(m'.regs.entry[k], m'.mem.entry[k])
  {
    var m' := Step(m, e);
    assert Agree(m.regs.entry[k], m.mem.entry[k]);
    RegKept(m, e, k);
    MemKept(m, e, k);
    AgreeMoved(m.regs.entry[k], m'.regs.entry[k], m.mem.entry[k], m'.mem.entry[k]);
  }

  lemma RegKept(m: Machine, e: Event, k: nat)
    requires m in Sound() && Possible(m, e) && k < |m.mem.entry|
    ensures k < |Step(m, e).regs.entry|
    ensures var r, r' := m.regs.entry[k], Step(m, e).regs.entry[k];
      && r'.memory == r.memory && (r.ready ==> r'.ready)
      && (r'.executed == Registers.Completed <==>
            r.executed == Registers.Completed || (e.CompleteOne? && k == e.i))
      && (r.memory && r'.executed != Registers.Idle ==>
            r.executed != Registers.Idle || (e.StartMemory? && k == e.i))
  {
    if RegEvent(e).Some? {
      RegFrame(m.regs, RegEvent(e).value, k);
      if m.regs.entry[k].ready {
        ReadyStays(m.regs, RegEvent(e).value, k);
      }
    }
  }

  lemma MemKept(m: Machine, e: Event, k: nat)
    requires m in Sound() && Possible(m, e) && k < |m.mem.entry|
    ensures k < |Step(m, e).mem.entry|
    ensures var q, q' := m.mem.entry[k], Step(m, e).mem.entry[k];
      && q'.loads == q.loads && q'.store == q.store && |q'.state| == |q.state| == LOADS
      && q'.inQueue == (q.inQueue || (e.StoreEnters? && k == e.i))
      && q'.done == (q.done || (e.StoreExecutes? && k == e.p))
      && q'.completed == (q.completed || (e.CompleteOne? && k == e.i))
      && forall j :: 0 <= j < LOADS ==> LoadMoved(e, k, j, q.state[j], q'.state[j])
  {
    if MemEvent(e).Some? {
      MemFrame(m.mem, MemEvent(e).value, k);
    }
  }

  /** How a load of instruction k can change in a step. */
  predicate LoadMoved(e: Event, k: nat, j: nat, s: LoadStore.LoadState, s': LoadStore.LoadState) {
    || s' == s
    || (e == LoadEnters(k, j) && s == LoadStore.Outside && s' != LoadStore.Outside)
    || (e.StoreExecutes? && s == LoadStore.Waiting(e.p) && s' == LoadStore.Released(Some(e.p)))
    || (e == CacheAnswers(k, j) && s == LoadStore.Sent && s' == LoadStore.Released(None))
  }

  lemma CoupledKept(m: Machine, e: Event)
    requires m in Sound() && Possible(m, e)
    ensures Coupled(Step(m, e))
  {
    var m' := Step(m, e);
    SizesKept(m, e);
    forall k | 0 <= k < |m'.mem.entry| ensures Agree(m'.regs.entry[k], m'.mem.entry[k]) {
      if k < |m.mem.entry| {
        AgreeKept(m, e, k);
      } else {
        NewAgrees(m, e);
      }
    }
  }

  lemma SizesKept(m: Machine, e: Event)
    requires m in Sound() && Possible(m, e)
    ensures var m' := Step(m, e);
      && |m'.regs.entry| == |m'.mem.entry| == |m.mem.entry| + One(e.DispatchOne?) && m'.regs.head == m'.mem.head
      && m'.regs.head == m.regs.head + One(e.RetireOne?) && m'.regs.next == m.regs.next + One(e.ScheduleOne?)
      && m'.regs.next <= m'.regs.head + SCHEDULER_SIZE
  {
    if RegEvent(e).Some? {
      RegSizes(m.regs, RegEvent(e).value);
    }
    if MemEvent(e).Some? {
      MemSizes(m.mem, MemEvent(e).value);
    }
  }

  lemma RegSizes(c: Registers.Core, e: Registers.Event)
    requires Registers.Enabled(c, e)
    ensures var c' := Registers.Step(c, e);
      && |c'.entry| == |c.entry| + One(e.DispatchOne?) && c'.head == c.head + One(e.RetireOne?)
      && c'.next == c.next + One(e.ScheduleOne?)
  {
    match e
    case CompleteOne(p, order) => RegisterProgress.ReleaseAllSame(Registers.MarkCompleted(c, p), p, order);
    case _ =>
  }

  lemma MemSizes(c: LoadStore.Core, e: LoadStore.Event)
    requires LoadStore.Enabled(c, e)
    ensures var c' := LoadStore.Step(c, e);
      |c'.entry| == |c.entry| + One(e.DispatchOne?) && c'.head == c.head + One(e.RetireOne?)
  {}

  lemma StoresRoom(m: Machine, e: Event)
    requires m in Sound() && Possible(m, e)
    ensures OldestIn(Step(m, e).mem) && |StoresHeld(Step(m, e).mem)| <= SQ_SIZE
  {
    var entering := if e.StoreEnters? then Some(e.i) else None;
    StoresMoved(m, e, entering);
    StoresFit(m.mem, Step(m, e).mem, entering);
  }

  /** What enters of the stores. */
  ghost predicate StoreMoves(c: LoadStore.Core, c': LoadStore.Core, entering: Option<nat>) {
    && |c.entry| <= |c'.entry| && c.head <= c'.head
    && (forall k :: 0 <= k < |c.entry| ==> c'.entry[k].store == c.entry[k].store)
    && (forall k :: 0 <= k < |c.entry| ==> c'.entry[k].inQueue == (c.entry[k].inQueue || Some(k) == entering))
    && (forall k :: |c.entry| <= k < |c'.entry| ==> !c'.entry[k].inQueue)
  }

  lemma StoresMoved(m: Machine, e: Event, entering: Option<nat>)
    requires m in Sound() && Possible(m, e) && entering == if e.StoreEnters? then Some(e.i) else None
    ensures StoreMoves(m.mem, Step(m, e).mem, entering)
  {
    var c, c' := m.mem, Step(m, e).mem;
    SizesKept(m, e);
    forall k | 0 <= k < |c.entry|
      ensures c'.entry[k].store == c.entry[k].store
      ensures c'.entry[k].inQueue == (c.entry[k].inQueue || Some(k) == entering)
    {
      MemKept(m, e, k);
    }
  }

  lemma StoresFit(c: LoadStore.Core, c': LoadStore.Core, entering: Option<nat>)
    requires StoreMoves(c, c', entering) && OldestIn(c) && |StoresHeld(c)| <= SQ_SIZE
    requires entering.Some? ==> |StoresHeld(c)| < SQ_SIZE && InTurn(c, entering.value)
    ensures OldestIn(c') && |StoresHeld(c')| <= SQ_SIZE
  {
    SubsetSize(StoresHeld(c'), StoresHeld(c) + if entering.Some? then {entering.value} else {});
    forall i: nat | LoadQueues.InWindow(c', i) && c'.entry[i].inQueue ensures InTurn(c', i) {
      assert InTurn(c, i);
    }
  }

  lemma LoadsRoom(m: Machine, e: Event)
    requires m in Sound() && Possible(m, e)
    ensures |LoadsHeld(Step(m, e).mem)| <= LQ_SIZE
  {
    var c, c' := m.mem, Step(m, e).mem;
    SizesKept(m, e);
    var more := if e.LoadEnters? then {LoadNumber(e.i, e.j)} else {};
    forall x | x in LoadsHeld(c') ensures x in LoadsHeld(c) + more {
      HeldBefore(m, e, x);
    }
    SubsetSize(LoadsHeld(c'), LoadsHeld(c) + more);
  }

  /** A load that holds a slot held it before, or has just entered. */
  lemma HeldBefore(m: Machine, e: Event, x: nat)
    requires m in Sound() && Possible(m, e) && x in LoadsHeld(Step(m, e).mem)
    ensures x in LoadsHeld(m.mem) || (e.LoadEnters? && x == LoadNumber(e.i, e.j))
  {
    SizesKept(m, e);
    var k := x / LOADS;
    if k < |m.mem.entry| {
      MemKept(m, e, k);
      NumberJoin(x);
      LiveBefore(m, e, k, x % LOADS);
    }
  }

  lemma LiveBefore(m: Machine, e: Event, i: nat, j: nat)
    requires m in Sound() && Possible(m, e) && LoadQueues.Live(Step(m, e).mem, i, j) && i < |m.mem.entry|
    ensures LoadQueues.Live(m.mem, i, j) || e == LoadEnters(i, j)
  {
    SizesKept(m, e);
    MemKept(m, e, i);
  }

  lemma StepKeeps(m: Machine, e: Event)
    requires m in Sound() && Possible(m, e)
    ensures Step(m, e) in Sound()
  {
    CoupledKept(m, e);
    StoresRoom(m, e);
    LoadsRoom(m, e);
    if RegEvent(e).Some? {
      Registers.StepKeeps(m.regs, RegEvent(e).value, Step(m, e).regs);
    }
    if MemEvent(e).Some? {
      LoadStore.StepKeeps(m.mem, MemEvent(e).value);
    }
  }

  lemma {:induction false} PathSound(events: seq<Event>, ms: seq<Machine>, n: nat)
    requires Path(events, ms) && ms[0] in Sound() && n <= |events|
    ensures ms[n] in Sound()
  {
    if n > 0 {
      var k := n - 1;
      PathSound(events, ms, k);
      StepKeeps(ms[k], events[k]);
    }
  }

  /** Everything that is proved of registers and of memory operations holds of the whole core. */
  lemma AttainedSound(m: Machine)
    requires Attained(m)
    ensures m in Sound()
  {
    var events, ms :| Leads(BOOT, events, ms, m);
    BootSound();
    PathSound(events, ms, |events|);
  }

  lemma BootSound()
    ensures BOOT in Sound()
  {
    assert LoadsHeld(LoadStore.BOOT) == {} && StoresHeld(LoadStore.BOOT) == {};
  }
}
