/** Program order through the front end, the reorder buffer and the store queue.

    Main results, in every reachable state: the reorder buffer, the decode buffer and the fetch target
    queue, read from their heads, list exactly the instructions between the last retired and the last
    read, in order; and the store queue followed by the store address ring lists exactly their stores,
    in program order, so the ring never overwrites a live entry. */
module PipelineOrder {
  import opened Common
  import opened CoreConfig
  import opened Rings

  const DECODE_SIZE: nat := 60
  const FTQ_SIZE: nat := 24
  const GROUP_SIZE: nat := 8
  const SQ_SIZE: nat := 72
  const STA_SIZE: nat := ROB_SIZE * 4
  /** The most instructions that can be between being read and being retired. */
  const IN_FLIGHT: nat := ROB_SIZE + DECODE_SIZE + FTQ_SIZE * GROUP_SIZE

  /** `block` is the 32-byte block of the instruction address; `stores` its memory destinations. */
  datatype Instr = Instr(id: nat, block: nat, stores: nat)

  /** Queues with their heads first.  Ids from `retired` on, below `read`, are in flight. */
  datatype Pipe = Pipe(ftq: seq<seq<Instr>>, decode: seq<Instr>, rob: seq<Instr>, read: nat, retired: nat,
                       sta: seq<nat>, sq: seq<nat>)

  const BOOT := Pipe([], [], [], 0, 0, [], [])

  // ----- Steps ------------------------------------------------------------------------------

  predicate Joins(groups: seq<seq<Instr>>, block: nat) {
    && groups != [] && groups[|groups| - 1] != [] && groups[|groups| - 1][0].block == block
    && |groups[|groups| - 1]| < GROUP_SIZE
  }

  /** `check_occupancy`. */
  predicate HasRoom(groups: seq<seq<Instr>>, block: nat) {
    |groups| < FTQ_SIZE || Joins(groups, block)
  }

  /** `add_to_ftq`: join the last group, or start a new one. */
  function AddToFtq(groups: seq<seq<Instr>>, i: Instr): seq<seq<Instr>> {
    if Joins(groups, i.block) then groups[|groups| - 1 := groups[|groups| - 1] + [i]] else groups + [[i]]
  }

  function Repeat(id: nat, n: nat): (ids: seq<nat>)
    ensures |ids| == n && forall k :: 0 <= k < n ==> ids[k] == id
  {
    seq(n, _ => id)
  }

  /** The next instruction of the trace is read. */
  function Read(p: Pipe, block: nat, stores: nat): Pipe {
    p.(ftq := AddToFtq(p.ftq, Instr(p.read, block, stores)), read := p.read + 1, sta := p.sta + Repeat(p.read, stores))
  }

  /** Drop the first instruction of the first group, and the group when it is empty. */
  function DropFirst(groups: seq<seq<Instr>>): seq<seq<Instr>>
    requires groups != [] && groups[0] != []
  {
    if |groups[0]| == 1 then groups[1..] else groups[0 := groups[0][1..]]
  }

  function ToDecode(p: Pipe): Pipe
    requires p.ftq != [] && p.ftq[0] != []
  {
    p.(ftq := DropFirst(p.ftq), decode := p.decode + [p.ftq[0][0]])
  }

  function Dispatch(p: Pipe): Pipe
    requires p.decode != []
  {
    p.(decode := p.decode[1..], rob := p.rob + [p.decode[0]])
  }

  /** `add_store_queue` for the store at the head of the ring. */
  function AddStore(p: Pipe): Pipe
    requires p.sta != []
  {
    p.(sta := p.sta[1..], sq := p.sq + [p.sta[0]])
  }

  /** The oldest instruction leaves, and its stores leave from the head of the store queue. */
  function Retire(p: Pipe): Pipe
    requires p.rob != []
  {
    var n := p.rob[0].stores;
    p.(rob := p.rob[1..], retired := p.retired + 1, sq := if n <= |p.sq| then p.sq[n..] else [])
  }

  // ----- The invariant ----------------------------------------------------------------------

  function Flat(groups: seq<seq<Instr>>): (all: seq<Instr>) {
    if groups == [] then [] else groups[0] + Flat(groups[1..])
  }

  /** Everything in flight, oldest first. */
  function InFlight(p: Pipe): seq<Instr> {
    p.rob + p.decode + Flat(p.ftq)
  }

  /** The stores of a list of instructions, in order. */
  function Stores(all: seq<Instr>): seq<nat> {
    if all == [] then [] else Stores(all[..|all| - 1]) + Repeat(all[|all| - 1].id, all[|all| - 1].stores)
  }

  predicate Consecutive(all: seq<Instr>, from: nat) {
    forall k :: 0 <= k < |all| ==> all[k].id == from + k
  }

  predicate GroupsOk(groups: seq<seq<Instr>>) {
    |groups| <= FTQ_SIZE && forall k :: 0 <= k < |groups| ==> 0 < |groups[k]| <= GROUP_SIZE
  }

  predicate Inv(p: Pipe) {
    && GroupsOk(p.ftq) && |p.decode| <= DECODE_SIZE && |p.rob| <= ROB_SIZE && |p.sq| <= SQ_SIZE
    && Consecutive(InFlight(p), p.retired) && p.read == p.retired + |InFlight(p)|
    && p.sq + p.sta == Stores(InFlight(p))
    && forall k :: 0 <= k < |InFlight(p)| ==> InFlight(p)[k].stores <= 2
  }

  // ----- Lists ------------------------------------------------------------------------------

  lemma {:induction false} FlatAppend(groups: seq<seq<Instr>>, more: seq<seq<Instr>>)
    ensures Flat(groups + more) == Flat(groups) + Flat(more)
  {
    if groups == [] {
      assert groups + more == more;
    } else {
      assert (groups + more)[1..] == groups[1..] + more;
      FlatAppend(groups[1..], more);
    }
  }

  lemma FlatAdd(groups: seq<seq<Instr>>, i: Instr)
    ensures Flat(AddToFtq(groups, i)) == Flat(groups) + [i]
  {
    if Joins(groups, i.block) {
      var n := |groups| - 1;
      assert groups == groups[..n] + [groups[n]];
      assert AddToFtq(groups, i) == groups[..n] + [groups[n] + [i]];
      FlatAppend(groups[..n], [groups[n]]);
      FlatAppend(groups[..n], [groups[n] + [i]]);
      FlatOne(groups[n]);
      FlatOne(groups[n] + [i]);
    } else {
      FlatAppend(groups, [[i]]);
      FlatOne([i]);
    }
  }

  lemma FlatOne(group: seq<Instr>)
    ensures Flat([group]) == group
  {
    assert [group][1..] == [];
  }

  lemma FlatDrop(groups: seq<seq<Instr>>)
    requires groups != [] && groups[0] != []
    ensures Flat(groups) == [groups[0][0]] + Flat(DropFirst(groups))
  {
    var first := groups[0];
    assert first == [first[0]] + first[1..];
    if |first| > 1 {
      var dropped := DropFirst(groups);
      assert dropped[0] == first[1..] && dropped[1..] == groups[1..];
      assert Flat(dropped) == first[1..] + Flat(groups[1..]);
    } else {
      assert first == [first[0]];
    }
  }

  lemma DropFirstOk(groups: seq<seq<Instr>>)
    requires groups != [] && GroupsOk(groups)
    ensures groups[0] != [] && GroupsOk(DropFirst(groups))
  {
    assert 0 < |groups[0]|;
  }

  lemma AddToFtqOk(groups: seq<seq<Instr>>, i: Instr)
    requires GroupsOk(groups) && HasRoom(groups, i.block)
    ensures GroupsOk(AddToFtq(groups, i))
  {}

  lemma {:induction false} FlatSize(groups: seq<seq<Instr>>)
    requires forall k :: 0 <= k < |groups| ==> |groups[k]| <= GROUP_SIZE
    ensures |Flat(groups)| <= GROUP_SIZE * |groups|
  {
    if groups != [] {
      FlatSize(groups[1..]);
    }
  }

  lemma StoresAdd(all: seq<Instr>, i: Instr)
    ensures Stores(all + [i]) == Stores(all) + Repeat(i.id, i.stores)
  {
    assert (all + [i])[..|all|] == all;
  }

  lemma {:induction false} StoresFirst(all: seq<Instr>)
    requires all != []
    ensures Stores(all) == Repeat(all[0].id, all[0].stores) + Stores(all[1..])
  {
    if |all| == 1 {
      assert all[..0] == [] && all[1..] == [];
    } else {
      var n := |all| - 1;
      StoresFirst(all[..n]);
      assert all[..n][1..] == all[1..][..n - 1];
    }
  }

  lemma {:induction false} StoresBound(all: seq<Instr>)
    requires forall k :: 0 <= k < |all| ==> all[k].stores <= 2
    ensures |Stores(all)| <= 2 * |all|
  {
    if all != [] {
      StoresBound(all[..|all| - 1]);
    }
  }

  /** There is room for an instruction exactly when, with it, the queue keeps to its groups and their sizes. */
  lemma RoomExactly(groups: seq<seq<Instr>>, i: Instr)
    requires GroupsOk(groups)
    ensures HasRoom(groups, i.block) <==> GroupsOk(AddToFtq(groups, i))
  {
    if HasRoom(groups, i.block) {
      AddToFtqOk(groups, i);
    }
  }

  // ----- The steps keep it ------------------------------------------------------------------

  lemma ReadKeeps(p: Pipe, block: nat, stores: nat)
    requires Inv(p) && HasRoom(p.ftq, block) && stores <= 2
    ensures Inv(Read(p, block, stores))
  {
    var i := Instr(p.read, block, stores);
    var p' := Read(p, block, stores);
    FlatAdd(p.ftq, i);
    AddToFtqOk(p.ftq, i);
    OneMore(p.rob + p.decode, Flat(p.ftq), i);
    assert InFlight(p') == InFlight(p) + [i];
    StoresAdd(InFlight(p), i);
    assert p'.sq + p'.sta == (p.sq + p.sta) + Repeat(p.read, stores);
    InFlightMore(p, p', i);
  }

  lemma OneMore<T>(a: seq<T>, b: seq<T>, x: T)
    ensures a + (b + [x]) == a + b + [x]
  {}

  lemma InFlightMore(p: Pipe, p': Pipe, i: Instr)
    requires Inv(p) && InFlight(p') == InFlight(p) + [i] && i.id == p.read && i.stores <= 2
    requires p'.read == p.read + 1 && p'.retired == p.retired && p'.decode == p.decode && p'.rob == p.rob
    requires p'.sq == p.sq && p'.sq + p'.sta == Stores(InFlight(p')) && GroupsOk(p'.ftq)
    ensures Inv(p')
  {}

  lemma MoveKeeps(p: Pipe, p': Pipe)
    requires Inv(p) && InFlight(p') == InFlight(p) && p'.sq + p'.sta == p.sq + p.sta
    requires p'.read == p.read && p'.retired == p.retired
    requires GroupsOk(p'.ftq) && |p'.decode| <= DECODE_SIZE && |p'.rob| <= ROB_SIZE && |p'.sq| <= SQ_SIZE
    ensures Inv(p')
  {}

  lemma MoveOne<T>(a: seq<T>, x: T, b: seq<T>)
    ensures a + ([x] + b) == a + [x] + b
  {}

  lemma ToDecodeKeeps(p: Pipe)
    requires Inv(p) && p.ftq != [] && |p.decode| < DECODE_SIZE
    ensures p.ftq[0] != [] && Inv(ToDecode(p))
  {
    DropFirstOk(p.ftq);
    FlatDrop(p.ftq);
    MoveOne(p.rob + p.decode, p.ftq[0][0], Flat(DropFirst(p.ftq)));
    assert p.rob + (p.decode + [p.ftq[0][0]]) == p.rob + p.decode + [p.ftq[0][0]];
    assert InFlight(ToDecode(p)) == InFlight(p);
    MoveKeeps(p, ToDecode(p));
  }

  lemma DispatchKeeps(p: Pipe)
    requires Inv(p) && p.decode != [] && |p.rob| < ROB_SIZE
    ensures Inv(Dispatch(p))
  {
    assert p.decode == [p.decode[0]] + p.decode[1..];
    assert InFlight(Dispatch(p)) == InFlight(p);
    MoveKeeps(p, Dispatch(p));
  }

  lemma AddStoreKeeps(p: Pipe)
    requires Inv(p) && p.sta != [] && |p.sq| < SQ_SIZE
    ensures Inv(AddStore(p))
  {
    assert p.sta == [p.sta[0]] + p.sta[1..];
    assert AddStore(p).sq + AddStore(p).sta == p.sq + p.sta;
    MoveKeeps(p, AddStore(p));
  }

  /** A run of one id at the front of two lists that reaches the second has a member in it. */
  lemma SplitRun(front: seq<nat>, back: seq<nat>, n: nat, id: nat)
    requires n <= |front + back| && forall k :: 0 <= k < n ==> (front + back)[k] == id
    ensures |front| < n ==> id in back
  {
    if |front| < n {
      assert (front + back)[|front|] == back[0];
    }
  }

  /** The stores of the oldest instruction are the first in the store queue, once all are in it. */
  lemma StoresAtHead(p: Pipe)
    requires Inv(p) && p.rob != [] && p.rob[0].id !in p.sta
    ensures p.rob[0].stores <= |p.sq| && p.sq[..p.rob[0].stores] == Repeat(p.rob[0].id, p.rob[0].stores)
  {
    var all := InFlight(p);
    assert all[0] == p.rob[0];
    StoresFirst(all);
    var n := p.rob[0].stores;
    assert forall k :: 0 <= k < n ==> (p.sq + p.sta)[k] == p.rob[0].id;
    SplitRun(p.sq, p.sta, n, p.rob[0].id);
    assert forall k :: 0 <= k < n ==> p.sq[k] == (p.sq + p.sta)[k];
  }

  lemma RetireKeeps(p: Pipe)
    requires Inv(p) && p.rob != [] && p.rob[0].id !in p.sta
    ensures Inv(Retire(p))
  {
    StoresAtHead(p);
    var p' := Retire(p);
    var all := InFlight(p);
    assert all[0] == p.rob[0] && InFlight(p') == all[1..];
    StoresFirst(all);
    var n := p.rob[0].stores;
    assert p'.sq + p'.sta == (p.sq + p.sta)[n..];
    assert Stores(all)[n..] == Stores(all[1..]);
  }

  // ----- Whole runs -------------------------------------------------------------------------

  datatype Event = ReadOne(block: nat, stores: nat) | DecodeOne | DispatchOne | StoreEnters | RetireOne

  /** What the program checks before each step; a retiring instruction has completed, so all its stores
      have left the ring. */
  predicate Enabled(p: Pipe, e: Event) {
    match e
    case ReadOne(block, stores) => HasRoom(p.ftq, block) && stores <= 2
    case DecodeOne => p.ftq != [] && p.ftq[0] != [] && |p.decode| < DECODE_SIZE
    case DispatchOne => p.decode != [] && |p.rob| < ROB_SIZE
    case StoreEnters => p.sta != [] && |p.sq| < SQ_SIZE && exists k :: 0 <= k < |p.rob| && p.rob[k].id == p.sta[0]
    case RetireOne => p.rob != [] && p.rob[0].id !in p.sta
  }

  function Step(p: Pipe, e: Event): Pipe
    requires Enabled(p, e)
  {
    match e
    case ReadOne(block, stores) => Read(p, block, stores)
    case DecodeOne => ToDecode(p)
    case DispatchOne => Dispatch(p)
    case StoreEnters => AddStore(p)
    case RetireOne => Retire(p)
  }

  ghost predicate IsRun(events: seq<Event>, pipes: seq<Pipe>) {
    && |pipes| == |events| + 1 && pipes[0] == BOOT
    && forall n :: 0 <= n < |events| ==> Enabled(pipes[n], events[n]) && pipes[n + 1] == Step(pipes[n], events[n])
  }

  lemma {:induction false} ReachableInv(events: seq<Event>, pipes: seq<Pipe>, n: nat)
    requires IsRun(events, pipes) && n <= |events|
    ensures Inv(pipes[n])
  {
    if n > 0 {
      ReachableInv(events, pipes, n - 1);
      var p := pipes[n - 1];
      match events[n - 1]
      case ReadOne(block, stores) => ReadKeeps(p, block, stores);
      case DecodeOne => ToDecodeKeeps(p);
      case DispatchOne => DispatchKeeps(p);
      case StoreEnters => AddStoreKeeps(p);
      case RetireOne => RetireKeeps(p);
    }
  }

  // ----- The main results -------------------------------------------------------------------

  /** The three buffers list the instructions in flight, in program order, without gaps. */
  lemma ProgramOrder(events: seq<Event>, pipes: seq<Pipe>, n: nat)
    requires IsRun(events, pipes) && n <= |events|
    ensures var p := pipes[n];
      Consecutive(p.rob + p.decode + Flat(p.ftq), p.retired) && p.read == p.retired + |p.rob + p.decode + Flat(p.ftq)|
  {
    ReachableInv(events, pipes, n);
  }

  /** At most 604 instructions are in flight, so the store address ring holds at most 1208 of its 1408
      entries and never overwrites a live one. */
  lemma RingNeverFull(events: seq<Event>, pipes: seq<Pipe>, n: nat)
    requires IsRun(events, pipes) && n <= |events|
    ensures |InFlight(pipes[n])| <= IN_FLIGHT == 604 && |pipes[n].sta| <= 2 * IN_FLIGHT < STA_SIZE
  {
    ReachableInv(events, pipes, n);
    FlatSize(pipes[n].ftq);
    StoresBound(InFlight(pipes[n]));
  }

  lemma {:induction false} StoresSorted(all: seq<Instr>, from: nat)
    requires Consecutive(all, from)
    ensures forall k :: 0 <= k < |Stores(all)| ==> from <= Stores(all)[k] < from + |all|
    ensures forall k, l :: 0 <= k < l < |Stores(all)| ==> Stores(all)[k] <= Stores(all)[l]
  {
    if all != [] {
      StoresSorted(all[..|all| - 1], from);
    }
  }

  /** Stores enter and leave the store queue in program order: the queue, and the ring behind it, are
      sorted by age, and a retiring instruction's stores are exactly those at the head. */
  lemma StoresInOrder(events: seq<Event>, pipes: seq<Pipe>, n: nat)
    requires IsRun(events, pipes) && n <= |events|
    ensures var p := pipes[n];
      && (forall k, l :: 0 <= k < l < |p.sq + p.sta| ==> (p.sq + p.sta)[k] <= (p.sq + p.sta)[l])
      && (p.rob != [] && p.rob[0].id !in p.sta ==>
            p.rob[0].stores <= |p.sq| && p.sq[..p.rob[0].stores] == Repeat(p.rob[0].id, p.rob[0].stores))
  {
    ReachableInv(events, pipes, n);
    var p := pipes[n];
    StoresSorted(InFlight(p), p.retired);
    if p.rob != [] && p.rob[0].id !in p.sta {
      StoresAtHead(p);
    }
  }

  // ----- Groups of the fetch target queue ---------------------------------------------------

  /** A group holds instructions of one block; and but for the oldest, which may have lost some, and the last, it is
      full or the next group is of another block. */
  ghost predicate Grouped(groups: seq<seq<Instr>>) {
    && (forall k :: 0 <= k < |groups| ==> groups[k] != [])
    && (forall k, a :: 0 <= k < |groups| && 0 <= a < |groups[k]| ==> groups[k][a].block == groups[k][0].block)
    && (forall k :: 1 <= k < |groups| - 1 ==>
         |groups[k]| == GROUP_SIZE || groups[k + 1][0].block != groups[k][0].block)
  }

  lemma AddGrouped(groups: seq<seq<Instr>>, i: Instr)
    requires Grouped(groups) && GroupsOk(groups)
    ensures Grouped(AddToFtq(groups, i))
  {
    var groups': seq<seq<Instr>> := AddToFtq(groups, i);
    forall k | 1 <= k < |groups'| - 1
      ensures |groups'[k]| == GROUP_SIZE || groups'[k + 1][0].block != groups'[k][0].block
    {
      assert 0 < |groups[k]| <= GROUP_SIZE;
    }
  }

  lemma DropGrouped(groups: seq<seq<Instr>>)
    requires Grouped(groups) && groups != []
    ensures Grouped(DropFirst(groups))
  {
    var groups': seq<seq<Instr>> := DropFirst(groups);
    if |groups[0]| == 1 {
      forall k | 0 <= k < |groups'| ensures groups'[k] == groups[k + 1] {}
    }
  }

  lemma {:induction false} AlwaysGrouped(events: seq<Event>, pipes: seq<Pipe>, n: nat)
    requires IsRun(events, pipes) && n <= |events|
    ensures Grouped(pipes[n].ftq)
  {
    if n > 0 {
      var k := n - 1;
      AlwaysGrouped(events, pipes, k);
      ReachableInv(events, pipes, k);
      match events[k]
      case ReadOne(block, stores) => AddGrouped(pipes[k].ftq, Instr(pipes[k].read, block, stores));
      case DecodeOne => DropGrouped(pipes[k].ftq);
      case _ =>
    }
  }

  // ----- The store address ring as the program runs it --------------------------------------

  /** Marks a free place. */
  const NO_INSTRUCTION: nat := 0xFFFF_FFFF_FFFF_FFFF

  /** A run leads to this state. */
  ghost predicate Reached(p: Pipe) {
    exists events, pipes :: LeadsTo(events, pipes, p)
  }

  ghost predicate LeadsTo(events: seq<Event>, pipes: seq<Pipe>, p: Pipe) {
    IsRun(events, pipes) && pipes[|events|] == p
  }

  lemma ReachedBoot()
    ensures Reached(BOOT)
  {
    assert LeadsTo([], [BOOT], BOOT);
  }

  lemma ReachedStep(p: Pipe, e: Event)
    requires Reached(p) && Enabled(p, e)
    ensures Reached(Step(p, e))
  {
    var events, pipes :| LeadsTo(events, pipes, p);
    assert LeadsTo(events + [e], pipes + [Step(p, e)], Step(p, e));
  }

  /** In every reachable state the ring has room for the stores of the instructions in flight. */
  lemma RingRoom(p: Pipe)
    requires Reached(p)
    ensures |InFlight(p)| <= IN_FLIGHT && |p.sta| < STA_SIZE
  {
    var events, pipes :| LeadsTo(events, pipes, p);
    RingNeverFull(events, pipes, |events|);
  }

  class StoreAddressRing {
    const sta: Ring
    /** The state of the pipeline that the ring belongs to. */
    ghost var pipe: Pipe

    ghost predicate Valid()
      reads this, sta, sta.place
    {
      && sta.Valid() && sta.place.Length == STA_SIZE && sta.free == NO_INSTRUCTION
      && Reached(pipe) && sta.contents == pipe.sta
    }

    constructor ()
      ensures Valid() && pipe == BOOT && fresh(sta) && fresh(sta.place)
    {
      sta := new Ring(STA_SIZE, NO_INSTRUCTION);
      pipe := BOOT;
      ReachedBoot();
    }

    /** An instruction is read: its stores take the places at the tail, which are free. */
    method ReadInstruction(id: nat, block: nat, stores: nat)
      requires Valid() && Enabled(pipe, ReadOne(block, stores)) && id == pipe.read != NO_INSTRUCTION
      modifies this`pipe, sta`tail, sta`contents, sta.place
      ensures Valid() && pipe == Read(old(pipe), block, stores)
    {
      ghost var before, after := pipe, Read(pipe, block, stores);
      ReachedStep(before, ReadOne(block, stores));
      RingRoom(after);
      assert |after.sta| == |before.sta| + stores;
      var n := 0;
      while n < stores
        invariant 0 <= n <= stores && sta.Valid() && sta.contents == before.sta + Repeat(id, n)
      {
        sta.Push(id);
        n := n + 1;
      }
      pipe := after;
    }

    /** Whether this instruction has the oldest store that has not entered the store queue. */
    method IsNext(id: nat) returns (next: bool)
      requires Valid() && id != NO_INSTRUCTION
      ensures next <==> pipe.sta != [] && pipe.sta[0] == id
    {
      var oldest := sta.Peek();
      next := oldest == id;
    }

    /** The oldest store enters the store queue: its place is free again. */
    method Enter()
      requires Valid() && Enabled(pipe, StoreEnters)
      modifies this`pipe, sta`head, sta`contents, sta.place
      ensures Valid() && pipe == AddStore(old(pipe))
    {
      ReachedStep(pipe, StoreEnters);
      sta.Pop();
      pipe := AddStore(pipe);
    }
  }

  // ----- The fetch target queue as the program runs it --------------------------------------

  /** The ring e holds these groups from `head` on, and nothing else. */
  ghost predicate Layout(e: seq<seq<Instr>>, head: nat, groups: seq<seq<Instr>>) {
    && |e| == FTQ_SIZE && head < FTQ_SIZE && |groups| <= FTQ_SIZE
    && forall k :: 0 <= k < FTQ_SIZE ==> e[Around(head, k, FTQ_SIZE)] == if k < |groups| then groups[k] else []
  }

  lemma LayoutSet(e: seq<seq<Instr>>, head: nat, groups: seq<seq<Instr>>, k: nat, group: seq<Instr>)
    requires Layout(e, head, groups) && k < |groups|
    ensures Layout(e[Around(head, k, FTQ_SIZE) := group], head, groups[k := group])
  {}

  lemma LayoutPush(e: seq<seq<Instr>>, head: nat, groups: seq<seq<Instr>>, group: seq<Instr>)
    requires Layout(e, head, groups) && |groups| < FTQ_SIZE
    ensures Layout(e[Around(head, |groups|, FTQ_SIZE) := group], head, groups + [group])
    ensures e[Around(head, |groups|, FTQ_SIZE)] == []
  {}

  lemma LayoutPop(e: seq<seq<Instr>>, head: nat, groups: seq<seq<Instr>>)
    requires Layout(e, head, groups) && groups != [] && groups[0] == []
    ensures Layout(e, Around(head, 1, FTQ_SIZE), groups[1..])
    ensures |groups| > 1 ==>
      Around(head, |groups| - 1, FTQ_SIZE) == Around(Around(head, 1, FTQ_SIZE), |groups| - 2, FTQ_SIZE)
  {
    assert Around(head, 0, FTQ_SIZE) == head;
    var head' := Around(head, 1, FTQ_SIZE);
    forall k | 0 <= k < FTQ_SIZE
      ensures e[Around(head', k, FTQ_SIZE)] == if k < |groups| - 1 then groups[1..][k] else []
    {
      assert Around(head', k, FTQ_SIZE) == if k == FTQ_SIZE - 1 then head else Around(head, k + 1, FTQ_SIZE);
    }
  }

  /** An empty ring is empty wherever it starts. */
  lemma LayoutEmpty(e: seq<seq<Instr>>, head: nat)
    requires Layout(e, head, [])
    ensures Layout(e, 0, [])
  {
    forall k | 0 <= k < FTQ_SIZE ensures e[Around(0, k, FTQ_SIZE)] == [] {
      assert Around(head, if k >= head then k - head else k + FTQ_SIZE - head, FTQ_SIZE) == k;
    }
  }

  /** Where the queue starts once its first group is used up. */
  function HeadAfter(head: nat, size: nat): nat
    requires head < FTQ_SIZE
  {
    if size == 1 then 0 else Around(head, 1, FTQ_SIZE)
  }

  lemma LayoutClose(e: seq<seq<Instr>>, head: nat, groups: seq<seq<Instr>>)
    requires Layout(e, head, groups) && groups != [] && groups[0] == []
    ensures Layout(e, HeadAfter(head, |groups|), groups[1..])
    ensures |groups| > 1 ==>
      Around(head, |groups| - 1, FTQ_SIZE) == Around(HeadAfter(head, |groups|), |groups| - 2, FTQ_SIZE)
  {
    LayoutPop(e, head, groups);
    if |groups| == 1 {
      LayoutEmpty(e, Around(head, 1, FTQ_SIZE));
    }
  }

  class FetchTargetQueue {
    const entry: array<seq<Instr>>
    var occupancy: nat
    var head: nat
    var tail: nat
    /** The groups in the queue, oldest first. */
    ghost var groups: seq<seq<Instr>>

    constructor ()
      ensures Valid() && groups == [] && fresh(entry)
    {
      entry := new seq<Instr>[FTQ_SIZE](i => []);
      occupancy, head, tail := 0, 0, 0;
      groups := [];
    }

    /** An empty queue is rewound to the start; otherwise the tail is the last group. */
    ghost predicate Valid()
      reads this, entry
    {
      && entry.Length == FTQ_SIZE && occupancy == |groups| && GroupsOk(groups) && Layout(entry[..], head, groups)
      && (if groups == [] then head == 0 && tail == 0 else tail == Around(head, |groups| - 1, FTQ_SIZE))
    }

    method CheckOccupancy(block: nat) returns (room: bool)
      requires Valid()
      ensures room == HasRoom(groups, block)
    {
      if occupancy == FTQ_SIZE {
        assert entry[..][tail] == groups[|groups| - 1];
        room := entry[tail][0].block == block && |entry[tail]| < GROUP_SIZE;
      } else {
        room := true;
      }
    }

    method Add(i: Instr)
      requires Valid() && HasRoom(groups, i.block)
      modifies this, entry
      ensures Valid() && groups == AddToFtq(old(groups), i)
    {
      assert entry[..][tail] == entry[..][Around(head, if groups == [] then 0 else |groups| - 1, FTQ_SIZE)];
      if |entry[tail]| != 0 && entry[tail][0].block == i.block && |entry[tail]| < GROUP_SIZE {
        Join(i);
      } else {
        if |entry[tail]| != 0 {
          tail := if tail + 1 >= FTQ_SIZE then 0 else tail + 1;
        }
        Open(i);
      }
      assert occupancy <= FTQ_SIZE;
    }

    /** The instruction joins the last group. */
    method Join(i: Instr)
      requires Valid() && Joins(groups, i.block)
      modifies this`groups, entry
      ensures Valid() && groups == AddToFtq(old(groups), i)
    {
      ghost var e, n := entry[..], |groups| - 1;
      assert e[tail] == groups[n];
      LayoutSet(e, head, groups, n, groups[n] + [i]);
      entry[tail] := entry[tail] + [i];
      assert entry[..] == e[tail := groups[n] + [i]];
      groups := groups[n := groups[n] + [i]];
    }

    /** The instruction opens a new group at the tail, which was free. */
    method Open(i: Instr)
      requires entry.Length == FTQ_SIZE && occupancy == |groups| < FTQ_SIZE && GroupsOk(groups)
      requires Layout(entry[..], head, groups) && tail == Around(head, |groups|, FTQ_SIZE)
      requires (groups == [] ==> head == 0)
      modifies this`groups, this`occupancy, entry
      ensures Valid() && groups == old(groups) + [[i]]
    {
      ghost var e := entry[..];
      LayoutPush(e, head, groups, [i]);
      assert entry[tail] == [] && entry[tail] + [i] == [i];
      entry[tail] := entry[tail] + [i];
      assert entry[..] == e[tail := [i]];
      occupancy := occupancy + 1;
      groups := groups + [[i]];
    }

    /** Take the oldest instruction, as the drain into the decode buffer does. */
    method TakeFirst() returns (i: Instr)
      requires Valid() && groups != []
      modifies this, entry
      ensures Valid() && i == old(groups)[0][0] && groups == DropFirst(old(groups))
    {
      ghost var e, rest := entry[..], groups[0][1..];
      LayoutSet(e, head, groups, 0, rest);
      assert Around(head, 0, FTQ_SIZE) == head && e[head] == groups[0];
      i := entry[head][0];
      entry[head] := entry[head][1..];
      assert entry[..] == e[head := rest];
      groups := groups[0 := rest];
      if |entry[head]| == 0 {
        CloseGroup();
        assert groups == old(groups)[1..];
      }
    }

    /** The first group is used up: the next one becomes first, and an empty queue is rewound. */
    method CloseGroup()
      requires entry.Length == FTQ_SIZE && occupancy == |groups| && groups != [] && groups[0] == []
      requires Layout(entry[..], head, groups) && tail == Around(head, |groups| - 1, FTQ_SIZE)
      requires GroupsOk(groups[1..])
      modifies this`occupancy, this`head, this`tail, this`groups
      ensures Valid() && groups == old(groups)[1..]
    {
      LayoutClose(entry[..], head, groups);
      occupancy := occupancy - 1;
      head := if head + 1 >= FTQ_SIZE then 0 else head + 1;
      groups := groups[1..];
      if occupancy == 0 {
        head, tail := 0, 0;
      }
    }
  }
}
