/** Scheduling, execution start, completion and wake-up as the program runs them: on the circular
    reorder buffer, the sets of dependents of its slots and the two circular ready rings.

    Every method is proved to be one step of the state machine of module Registers, or a number of them;
    `events` records which.  So everything proved there of every run holds of this structure. */
module Scheduler {
  import opened Common
  import opened CoreConfig
  import opened Registers
  import opened RegisterRing
  import opened Rings

  // ----- What the slots hold ----------------------------------------------------------------

  /** A slot with this instruction in it. */
  function Image(e: Entry): RobEntry
    requires |e.producers| == SOURCES
  {
    RobEntry(true, e.sources, e.dests, e.memory, e.scheduled, e.executed, e.ready, e.waits,
             [e.producers[0].Some?, e.producers[1].Some?, e.producers[2].Some?, e.producers[3].Some?])
  }

  /** Instruction i is in the row of p exactly under the sources that are linked to p. */
  ghost predicate RowAt(row: Row, c: Core, p: nat, i: nat)
    requires WellFormed(c) && i < |c.entry| && |row.sources| == SOURCES
  {
    && (Slot(i) in row.all <==> DependsOn(c, i, p))
    && forall j :: 0 <= j < SOURCES ==> (Slot(i) in row.sources[j] <==> c.entry[i].producers[j] == Some(p))
  }

  /** The row of instruction p: the slots of its dependents, and no others. */
  ghost predicate RowOk(row: Row, c: Core, p: nat)
    requires WellFormed(c)
  {
    && |row.sources| == SOURCES
    && (forall x :: x in row.all ==> x < ROB_SIZE && InstrAt(c.head, x) < |c.entry|)
    && (forall j, x :: 0 <= j < SOURCES && x in row.sources[j] ==> x in row.all)
    && (forall i :: c.head <= i < |c.entry| ==> RowAt(row, c, p, i))
  }

  ghost predicate Held(e: seq<RobEntry>, d: seq<Row>, c: Core, i: nat)
    requires WellFormed(c) && i < |c.entry| && |e| == ROB_SIZE == |d|
  {
    e[Slot(i)] == Image(c.entry[i]) && RowOk(d[Slot(i)], c, i)
  }

  /** The arrays hold the instructions in the buffer. */
  ghost predicate Holds(e: seq<RobEntry>, d: seq<Row>, c: Core) {
    && WellFormed(c) && c.head <= |c.entry| <= c.head + ROB_SIZE && |e| == ROB_SIZE == |d|
    && (forall k :: 0 <= k < ROB_SIZE ==> |d[k].sources| == SOURCES)
    && forall i :: c.head <= i < |c.entry| ==> Held(e, d, c, i)
  }

  /** The other slots are empty. */
  ghost predicate Vacant(e: seq<RobEntry>, head: nat, count: nat) {
    |e| == ROB_SIZE && forall k :: 0 <= k < ROB_SIZE && InstrAt(head, k) >= count ==> e[k] == EMPTY
  }

  lemma VacantKept(e: seq<RobEntry>, head: nat, count: nat, i: nat, image: RobEntry)
    requires Vacant(e, head, count) && head <= i < head + ROB_SIZE
    ensures i < count ==> Vacant(e[Slot(i) := image], head, count)
    ensures i == count ==> Vacant(e[Slot(i) := image], head, count + 1)
  {
    AtSlot(head, i);
  }

  lemma VacantRetired(e: seq<RobEntry>, head: nat, count: nat)
    requires Vacant(e, head, count) && head < count
    ensures Vacant(e[Slot(head) := EMPTY], head + 1, count)
  {
    forall k | 0 <= k < ROB_SIZE && k != Slot(head) ensures InstrAt(head + 1, k) == InstrAt(head, k) {
      AtSlot(head + 1, InstrAt(head, k));
    }
  }

  /** The ring's slots are those of these instructions. */
  ghost predicate SlotsOf(slots: seq<nat>, q: seq<nat>) {
    |slots| == |q| && forall k :: 0 <= k < |q| ==> slots[k] == Slot(q[k])
  }

  // ----- The steps on the slots -------------------------------------------------------------

  /** One instruction changes, but not its links. */
  lemma OneChanged(e: seq<RobEntry>, d: seq<Row>, c: Core, c': Core, i: nat)
    requires Holds(e, d, c) && WellFormed(c') && c.head <= i < |c.entry| && c'.head == c.head
    requires |c'.entry| == |c.entry| && c'.entry[i].producers == c.entry[i].producers
    requires forall k :: 0 <= k < |c.entry| && k != i ==> c'.entry[k] == c.entry[k]
    ensures Holds(e[Slot(i) := Image(c'.entry[i])], d, c')
  {
    var e' := e[Slot(i) := Image(c'.entry[i])];
    forall k | c.head <= k < |c.entry| ensures Held(e', d, c', k) {
      assert Held(e, d, c, k);
      if k != i {
        SlotApart(k, i);
      }
      forall l | c.head <= l < |c.entry| ensures RowAt(d[Slot(k)], c', k, l) {
        assert RowAt(d[Slot(k)], c, k, l);
      }
    }
  }

  lemma LinksAreOlder(c: Core, i: nat, p: nat)
    requires Inv(c, {}) && i < |c.entry| && p >= i
    ensures !DependsOn(c, i, p)
  {
    assert if i < c.next then ScheduledOk(c, i, {}) else FreshOk(c.entry[i]);
  }

  lemma DispatchHolds(e: seq<RobEntry>, d: seq<Row>, c: Core, sources: seq<nat>, dests: seq<nat>, memory: bool)
    requires Holds(e, d, c) && Inv(c, {}) && |c.entry| < c.head + ROB_SIZE && |sources| == SOURCES
    ensures var k, c' := Slot(|c.entry|), Dispatch(c, sources, dests, memory);
      WellFormed(c') && Holds(e[k := Image(c'.entry[|c.entry|])], d[k := NO_WAITERS], c')
  {
    var n, c' := |c.entry|, Dispatch(c, sources, dests, memory);
    var k := Slot(n);
    var e', d' := e[k := Image(c'.entry[n])], d[k := NO_WAITERS];
    forall p | c.head <= p <= n ensures Held(e', d', c', p) {
      if p < n {
        assert Held(e, d, c, p);
        SlotApart(p, n);
        AtSlot(c.head, n);
      }
      forall i | c.head <= i <= n ensures RowAt(d'[Slot(p)], c', p, i) {
        if p == n && i < n {
          LinksAreOlder(c, i, p);
        } else if i < n {
          assert RowAt(d[Slot(p)], c, p, i);
        }
      }
    }
  }

  lemma RetireHolds(e: seq<RobEntry>, d: seq<Row>, c: Core)
    requires Holds(e, d, c) && Inv(c, {}) && c.head < |c.entry|
    ensures Holds(e[Slot(c.head) := EMPTY], d[Slot(c.head) := NO_WAITERS], Retire(c))
  {
    var c', k := Retire(c), Slot(c.head);
    var e', d' := e[k := EMPTY], d[k := NO_WAITERS];
    forall p | c'.head <= p < |c.entry| ensures Held(e', d', c', p) {
      assert Held(e, d, c, p);
      SlotApart(c.head, p);
      LinksAreOlder(c, c.head, p);
      assert RowAt(d[Slot(p)], c, p, c.head);
      forall i | c'.head <= i < |c.entry| ensures RowAt(d[Slot(p)], c', p, i) {
        assert RowAt(d[Slot(p)], c, p, i);
      }
      forall x | x in d[Slot(p)].all ensures InstrAt(c'.head, x) < |c.entry| {
        AtSlot(c'.head, InstrAt(c.head, x));
      }
    }
  }

  /** The links found for the next instruction, as slots. */
  ghost predicate FoundLinks(c: Core, links: seq<Option<nat>>)
    requires WellFormed(c) && c.next < |c.entry|
  {
    && |links| == SOURCES
    && forall j :: 0 <= j < SOURCES ==> links[j] == SlotOf(Links(c.entry, c.head, c.next)[j])
  }

  lemma ScheduledImage(c: Core, links: seq<Option<nat>>)
    requires WellFormed(c) && c.next < |c.entry| && FreshOk(c.entry[c.next]) && FoundLinks(c, links)
    ensures LinkedEntry(Image(c.entry[c.next]).(ready := true), links).(
              scheduled := if c.entry[c.next].memory then Inflight else Completed)
            == Image(Schedule(c).entry[c.next])
  {}

  /** The row of p after scheduling: the new instruction joins under the sources linked to p. */
  lemma ScheduleRow(row: Row, c: Core, links: seq<Option<nat>>, p: nat)
    requires WellFormed(c) && c.head <= c.next < |c.entry| <= c.head + ROB_SIZE && FreshOk(c.entry[c.next])
    requires FoundLinks(c, links) && RowOk(row, c, p) && c.head <= p < |c.entry|
    ensures RowOk(LinkedRow(row, Slot(p), Slot(c.next), links), Schedule(c), p)
  {
    var n, c' := c.next, Schedule(c);
    var found := Links(c.entry, c.head, n);
    var row' := LinkedRow(row, Slot(p), Slot(n), links);
    AtSlot(c.head, n);
    forall j | 0 <= j < SOURCES ensures links[j] == Some(Slot(p)) <==> found[j] == Some(p) {
      NewLinks(c, n, j);
      if found[j].Some? && found[j].value != p {
        SlotApart(p, found[j].value);
      }
    }
    assert Some(Slot(p)) in links <==> Some(p) in found;
    forall i | c.head <= i < |c.entry| ensures RowAt(row', c', p, i) {
      assert RowAt(row, c, p, i);
      if i != n {
        SlotApart(i, n);
      }
    }
  }

  lemma ScheduleHolds(e: seq<RobEntry>, d: seq<Row>, c: Core, links: seq<Option<nat>>)
    requires Holds(e, d, c) && Inv(c, {}) && c.next < |c.entry| && FoundLinks(c, links)
    ensures Holds(e[Slot(c.next) := Image(Schedule(c).entry[c.next])], LinkedRows(d, Slot(c.next), links), Schedule(c))
  {
    var n, c' := c.next, Schedule(c);
    var e', d' := e[Slot(n) := Image(c'.entry[n])], LinkedRows(d, Slot(n), links);
    forall p | c.head <= p < |c.entry| ensures Held(e', d', c', p) {
      assert Held(e, d, c, p);
      ScheduleRow(d[Slot(p)], c, links, p);
      if p != n {
        SlotApart(p, n);
      }
    }
  }

  // ----- States that runs reach -------------------------------------------------------------

  /** A run of module Registers leads to this state. */
  ghost predicate Reached(c: Core) {
    exists events, cores :: LeadsTo(events, cores, c)
  }

  ghost predicate LeadsTo(events: seq<Event>, cores: seq<Core>, c: Core) {
    IsRun(events, cores) && cores[|events|] == c
  }

  lemma ReachedBoot()
    ensures Reached(BOOT)
  {
    assert LeadsTo([], [BOOT], BOOT);
  }

  lemma ReachedKeeps(c: Core)
    requires Reached(c)
    ensures Inv(c, {})
  {
    var events, cores :| LeadsTo(events, cores, c);
    ReachableInv(events, cores, |events|);
  }

  lemma ReachedStep(c: Core, e: Event)
    requires Reached(c) && Enabled(c, e)
    ensures Reached(Step(c, e))
  {
    var events, cores :| LeadsTo(events, cores, c);
    assert LeadsTo(events + [e], cores + [Step(c, e)], Step(c, e));
  }

  // ----- The structure ----------------------------------------------------------------------

  ghost predicate Indexed(head: nat, tail: nat, occupancy: nat, c: Core) {
    head == Slot(c.head) && tail == Slot(|c.entry|) && occupancy == |c.entry| - c.head
  }

  /** The states that the values of the arrays, the indices and the rings show. */
  ghost function Shown(e: seq<RobEntry>, d: seq<Row>, head: nat, tail: nat, occupancy: nat, q0: seq<nat>, q1: seq<nat>)
    : iset<Core>
  {
    iset c: Core |
    && Holds(e, d, c) && Vacant(e, c.head, |c.entry|) && Indexed(head, tail, occupancy, c)
    && SlotsOf(q0, c.rte0) && SlotsOf(q1, c.rte1)
  }

  /** A newly dispatched instruction in its slot. */
  function NewEntry(sources: seq<nat>, dests: seq<nat>, memory: bool): RobEntry {
    RobEntry(true, sources, dests, memory, Idle, Idle, false, 0, [false, false, false, false])
  }

  lemma DispatchIndexed(head: nat, tail: nat, occupancy: nat, c: Core, sources: seq<nat>, dests: seq<nat>, memory: bool)
    requires Indexed(head, tail, occupancy, c) && c.head <= |c.entry| < c.head + ROB_SIZE && |sources| == SOURCES
    ensures Indexed(head, Next(tail), occupancy + 1, Dispatch(c, sources, dests, memory))
    ensures InstrAt(c.head, tail) == |c.entry|
    ensures Image(Dispatch(c, sources, dests, memory).entry[|c.entry|]) == NewEntry(sources, dests, memory)
  {
    AtSlot(c.head, |c.entry|);
  }

  lemma DispatchShown(e: seq<RobEntry>, d: seq<Row>, head: nat, tail: nat, occupancy: nat, q0: seq<nat>, q1: seq<nat>,
                      c: Core, sources: seq<nat>, dests: seq<nat>, memory: bool)
    requires c in Shown(e, d, head, tail, occupancy, q0, q1) && Reached(c) && occupancy < ROB_SIZE
    requires |sources| == SOURCES
    ensures e[tail] == EMPTY && Reached(Dispatch(c, sources, dests, memory))
    ensures Dispatch(c, sources, dests, memory) in
      Shown(e[tail := NewEntry(sources, dests, memory)], d[tail := NO_WAITERS], head, Next(tail), occupancy + 1, q0, q1)
  {
    ReachedKeeps(c);
    ReachedStep(c, DispatchOne(sources, dests, memory));
    DispatchIndexed(head, tail, occupancy, c, sources, dests, memory);
    DispatchHolds(e, d, c, sources, dests, memory);
    VacantKept(e, c.head, |c.entry|, |c.entry|, NewEntry(sources, dests, memory));
  }

  /** There is room in ring 1 for an instruction that is ready at once. */
  lemma ScheduleRoom(c: Core)
    requires Reached(c) && c.next < |c.entry|
    ensures WellFormed(c) && Reached(Schedule(c))
    ensures var e := Schedule(c).entry[c.next]; !e.memory && e.ready ==> |c.rte1| < ROB_SIZE
  {
    ReachedKeeps(c);
    ReachedStep(c, ScheduleOne);
    ReachedKeeps(Schedule(c));
    RingRoom(Schedule(c), {});
  }

  lemma ScheduleShown(e: seq<RobEntry>, d: seq<Row>, head: nat, tail: nat, occupancy: nat, q0: seq<nat>, q1: seq<nat>,
                      c: Core, links: seq<Option<nat>>)
    requires c in Shown(e, d, head, tail, occupancy, q0, q1) && Reached(c) && c.next < |c.entry| && FoundLinks(c, links)
    ensures Reached(Schedule(c))
    ensures var k, new_ := Slot(c.next), Schedule(c).entry[c.next];
      && (!new_.memory && new_.ready ==> |q1| < ROB_SIZE)
      && Schedule(c) in
           Shown(e[k := Image(new_)], LinkedRows(d, k, links), head, tail, occupancy, q0,
                 if !new_.memory && new_.ready then q1 + [k] else q1)
  {
    ReachedKeeps(c);
    ScheduleRoom(c);
    ScheduleHolds(e, d, c, links);
    VacantKept(e, c.head, |c.entry|, c.next, Image(Schedule(c).entry[c.next]));
  }

  lemma LinksFound(c: Core, links: seq<Option<nat>>)
    requires WellFormed(c) && c.next < |c.entry| && |links| == SOURCES
    requires forall j :: 0 <= j < SOURCES ==> links[j] == LinkBack(c.entry, c.head, c.next, j)
    ensures FoundLinks(c, links)
  {}

  /** Before the scan nothing is linked, and the buffer holds the window the scan looks at. */
  lemma NoLinksYet(e: seq<RobEntry>, d: seq<Row>, c: Core)
    requires Holds(e, d, c) && Reached(c) && c.next < |c.entry|
    ensures var k := Slot(c.next);
      var e' := e[k := e[k].(ready := true)];
      && Window(e', c.entry, c.head, c.next) && Shaped(e', d, k)
      && e' == LinkedEntries(e', k, NO_LINKS) && d == LinkedRows(d, k, NO_LINKS)
  {
    ReachedKeeps(c);
    var n, k := c.next, Slot(c.next);
    var e' := e[k := e[k].(ready := true)];
    assert Held(e, d, c, n);
    forall i | c.head <= i <= n
      ensures e'[Slot(i)].sources == c.entry[i].sources && e'[Slot(i)].dests == c.entry[i].dests
      ensures e'[Slot(i)].executed == c.entry[i].executed
    {
      assert Held(e, d, c, i);
      if i != n {
        SlotApart(i, n);
      }
    }
    forall r | 0 <= r < ROB_SIZE ensures LinkedRow(d[r], r, k, NO_LINKS) == d[r] {}
  }

  /** What the scan leaves in the slot of the instruction, given its links. */
  lemma ScanResult(e: seq<RobEntry>, d: seq<Row>, c: Core, links: seq<Option<nat>>)
    requires Holds(e, d, c) && Reached(c) && c.next < |c.entry| && FoundLinks(c, links)
    ensures var k := Slot(c.next);
      var e' := LinkedEntries(e[k := e[k].(ready := true)], k, links);
      && e'[k].memory == c.entry[c.next].memory
      && e'[k := e'[k].(scheduled := if e'[k].memory then Inflight else Completed)]
           == e[k := Image(Schedule(c).entry[c.next])]
  {
    ReachedKeeps(c);
    assert Held(e, d, c, c.next);
    ScheduledImage(c, links);
  }

  /** One instruction changes, and with it perhaps the rings. */
  lemma ChangeShown(e: seq<RobEntry>, d: seq<Row>, head: nat, tail: nat, occupancy: nat, q0: seq<nat>, q1: seq<nat>,
                    c: Core, c': Core, i: nat, q0': seq<nat>, q1': seq<nat>)
    requires c in Shown(e, d, head, tail, occupancy, q0, q1) && SlotsOf(q0', c'.rte0) && SlotsOf(q1', c'.rte1)
    requires WellFormed(c') && c.head <= i < |c.entry|
    requires c'.head == c.head && |c'.entry| == |c.entry| && c'.entry[i].producers == c.entry[i].producers
    requires forall k :: 0 <= k < |c.entry| && k != i ==> c'.entry[k] == c.entry[k]
    ensures e[Slot(i)] == Image(c.entry[i])
    ensures c' in Shown(e[Slot(i) := Image(c'.entry[i])], d, head, tail, occupancy, q0', q1')
  {
    assert Held(e, d, c, i);
    OneChanged(e, d, c, c', i);
    VacantKept(e, c.head, |c.entry|, i, Image(c'.entry[i]));
  }

  /** The head of a ring starts. */
  lemma ExecuteShown(e: seq<RobEntry>, d: seq<Row>, head: nat, tail: nat, occupancy: nat, q0: seq<nat>, q1: seq<nat>,
                     c: Core, zero: bool)
    requires c in Shown(e, d, head, tail, occupancy, q0, q1) && Reached(c) && (if zero then q0 else q1) != []
    ensures WellFormed(c) && Enabled(c, ExecuteOne(zero)) && Reached(Execute(c, zero))
    ensures var k := (if zero then q0 else q1)[0];
      && k < ROB_SIZE
      && Execute(c, zero) in Shown(e[k := e[k].(executed := Inflight)], d, head, tail, occupancy,
                                   if zero then q0[1..] else q0, if zero then q1 else q1[1..])
  {
    ReachedKeeps(c);
    RingHead(c, zero);
    ReachedStep(c, ExecuteOne(zero));
    var q := if zero then c.rte0 else c.rte1;
    assert ScheduledOk(c, q[0], {});
    ChangeShown(e, d, head, tail, occupancy, q0, q1, c, Execute(c, zero), q[0],
                if zero then q0[1..] else q0, if zero then q1 else q1[1..]);
  }

  // ----- Completion -------------------------------------------------------------------------

  /** The states that satisfy the invariant but for these links, which are about to be released. */
  ghost function Legal(pending: set<(nat, nat)>): iset<Core> {
    iset c: Core | Inv(c, pending)
  }

  /** A link of instruction i to p is released while those in `pending` are still to be. */
  ghost predicate Releasable(c: Core, p: nat, i: nat, j: nat, pending: set<(nat, nat)>) {
    && c in Legal(pending) && p < c.next && c.entry[p].executed == Completed
    && i < c.next && c.head <= i && j < SOURCES && (i, j) in pending && c.entry[i].producers[j] == Some(p)
  }

  /** The state after it, and the room in ring 0. */
  lemma ReleaseRoom(c: Core, p: nat, i: nat, j: nat, pending: set<(nat, nat)>)
    requires Releasable(c, p, i, j, pending)
    ensures WellFormed(c) && ReleaseLink(c, i) in Legal(pending - {(i, j)}) && Extends(c, ReleaseLink(c, i))
    ensures c.entry[i].waits == 1 && !c.entry[i].memory ==> |c.rte0| < ROB_SIZE
  {
    ReleaseLinkKeeps(c, i, j, p, pending);
    ReleaseEntries(c, i, j, p, pending);
    RingRoom(ReleaseLink(c, i), pending - {(i, j)});
  }

  /** The slot with one link less. */
  function ReleasedEntry(e: RobEntry): RobEntry {
    if e.waits != 1 then e.(waits := e.waits - 1)
    else e.(waits := 0, ready := true, scheduled := if e.memory then Inflight else Completed)
  }

  lemma ReleaseShown(e: seq<RobEntry>, d: seq<Row>, head: nat, tail: nat, occupancy: nat, q0: seq<nat>, q1: seq<nat>,
                     c: Core, i: nat)
    requires c in Shown(e, d, head, tail, occupancy, q0, q1) && c.head <= i < |c.entry|
    ensures var k := Slot(i);
      && e[k].waits == c.entry[i].waits && e[k].memory == c.entry[i].memory
      && ReleaseLink(c, i) in Shown(e[k := ReleasedEntry(e[k])], d, head, tail, occupancy,
                                    if e[k].waits == 1 && !e[k].memory then q0 + [k] else q0, q1)
  {
    var k := Slot(i);
    assert Held(e, d, c, i);
    ChangeShown(e, d, head, tail, occupancy, q0, q1, c, ReleaseLink(c, i), i,
                if e[k].waits == 1 && !e[k].memory then q0 + [k] else q0, q1);
  }

  /** The links that are left once the sources below j of instruction i have been released. */
  function Rest(pending: set<(nat, nat)>, i: nat, j: nat): set<(nat, nat)> {
    set x | x in pending && !(x.0 == i && x.1 < j)
  }

  /** The sources of instruction i from j on are about to lose their links to p. */
  ghost predicate Releasing(c: Core, p: nat, i: nat, j: nat, pending: set<(nat, nat)>) {
    && c in Legal(Rest(pending, i, j)) && c.head <= p < c.next && c.entry[p].executed == Completed
    && c.head <= i < c.next && j <= SOURCES
    && pending <= LinksTo(c, p) && forall l: nat :: (i, l) in LinksTo(c, p) ==> (i, l) in pending
  }

  function AfterSource(c: Core, p: nat, i: nat, j: nat): (c': Core)
    requires WellFormed(c) && i < |c.entry| && j < SOURCES
  {
    if c.entry[i].producers[j] == Some(p) then ReleaseLink(c, i) else c
  }

  lemma SourceNext(c: Core, p: nat, i: nat, j: nat)
    requires WellFormed(c) && i < |c.entry| && j < SOURCES
    ensures ReleaseFrom(c, p, i, j) == ReleaseFrom(AfterSource(c, p, i, j), p, i, j + 1)
  {}

  lemma ReleasingLink(c: Core, p: nat, i: nat, j: nat, pending: set<(nat, nat)>)
    requires Releasing(c, p, i, j, pending) && j < SOURCES && c.entry[i].producers[j] == Some(p)
    ensures Releasable(c, p, i, j, Rest(pending, i, j))
    ensures Releasing(ReleaseLink(c, i), p, i, j + 1, pending)
  {
    assert (i, j) in LinksTo(c, p);
    ReleaseRoom(c, p, i, j, Rest(pending, i, j));
    SameLinks(c, ReleaseLink(c, i), p);
    assert Rest(pending, i, j) - {(i, j)} == Rest(pending, i, j + 1);
  }

  lemma ReleasingOther(c: Core, p: nat, i: nat, j: nat, pending: set<(nat, nat)>)
    requires Releasing(c, p, i, j, pending) && j < SOURCES && c.entry[i].producers[j] != Some(p)
    ensures Releasing(c, p, i, j + 1, pending)
  {
    assert (i, j) !in LinksTo(c, p);
    assert Rest(pending, i, j) == Rest(pending, i, j + 1);
  }

  /** What the row of p says of an instruction in the buffer. */
  lemma RowSays(e: seq<RobEntry>, d: seq<Row>, c: Core, p: nat, i: nat)
    requires Holds(e, d, c) && c.head <= p < |c.entry| && c.head <= i < |c.entry|
    ensures RowAt(d[Slot(p)], c, p, i)
  {
    assert Held(e, d, c, p);
  }

  /** The links to p of the instructions in these slots. */
  ghost function LeftIn(c: Core, p: nat, todo: set<nat>): set<(nat, nat)>
    requires WellFormed(c)
  {
    set x | x in LinksTo(c, p) && Slot(x.0) in todo
  }

  /** The order lists, once each, the instructions in the slots of `all` that are not still to do. */
  ghost predicate ListsDone(head: nat, count: nat, all: set<nat>, todo: set<nat>, order: seq<nat>) {
    && todo <= all && (forall x :: x in all ==> x < ROB_SIZE && InstrAt(head, x) < count)
    && (forall k :: 0 <= k < |order| ==> head <= order[k] < count && Slot(order[k]) in all - todo)
    && (forall x :: x in all - todo ==> InstrAt(head, x) in order)
    && (forall k, l :: 0 <= k < l < |order| ==> order[k] != order[l])
  }

  lemma ListsOneMore(head: nat, count: nat, all: set<nat>, todo: set<nat>, order: seq<nat>, k: nat)
    requires ListsDone(head, count, all, todo, order) && k in todo
    ensures ListsDone(head, count, all, todo - {k}, order + [InstrAt(head, k)])
  {}

  /** The dependents released so far, in order; those still to be released are in the slots `todo`. */
  ghost predicate ReleasedSoFar(marked: Core, c: Core, p: nat, all: set<nat>, todo: set<nat>, order: seq<nat>) {
    && WellFormed(marked) && c in Legal(LeftIn(marked, p, todo)) && Extends(marked, c) && |c.entry| == |marked.entry|
    && c.head == marked.head <= p < c.next && c.entry[p].executed == Completed
    && ListsDone(c.head, |c.entry|, all, todo, order) && ReleaseAll(marked, p, order) == c
  }

  /** A dependent of p is younger than p and in the buffer. */
  lemma DependentPlace(c: Core, p: nat, i: nat, pending: set<(nat, nat)>)
    requires Inv(c, pending) && c.head <= p && DependsOn(c, i, p)
    ensures p < i < c.next && InstrAt(c.head, Slot(i)) == i
  {
    assert if i < c.next then ScheduledOk(c, i, pending) else FreshOk(c.entry[i]);
    AtSlot(c.head, i);
  }

  /** The instruction in a slot of the row of p is scheduled, and all its links to p are left. */
  lemma NextRelease(marked: Core, c: Core, p: nat, row: Row, todo: set<nat>, order: seq<nat>, k: nat)
    requires ReleasedSoFar(marked, c, p, row.all, todo, order) && RowOk(row, c, p) && k in todo
    ensures Releasing(c, p, InstrAt(c.head, k), 0, LeftIn(marked, p, todo))
  {
    var i, left := InstrAt(c.head, k), LeftIn(marked, p, todo);
    assert RowAt(row, c, p, i);
    SameLinks(marked, c, p);
    DependentPlace(c, p, i, left);
    assert Rest(left, i, 0) == left;
  }

  lemma {:induction false} ReleaseAllMore(c: Core, p: nat, order: seq<nat>, i: nat)
    requires WellFormed(c) && i < |c.entry| && forall k :: 0 <= k < |order| ==> order[k] < |c.entry|
    ensures ReleaseAll(c, p, order + [i]) == ReleaseFrom(ReleaseAll(c, p, order), p, i, 0)
    decreases |order|
  {
    if order != [] {
      assert (order + [i])[1..] == order[1..] + [i];
      ReleaseAllMore(ReleaseFrom(c, p, order[0], 0), p, order[1..], i);
    } else {
      assert order + [i] == [i] && [i][1..] == [];
    }
  }

  /** The links left once slot k is done. */
  lemma LeftNext(marked: Core, c: Core, p: nat, todo: set<nat>, k: nat)
    requires WellFormed(marked) && c in Legal(LeftIn(marked, p, todo)) && Extends(marked, c)
    requires |c.entry| == |marked.entry|
    requires c.head <= p && k < ROB_SIZE && InstrAt(c.head, k) < |c.entry|
    ensures After(LeftIn(marked, p, todo), InstrAt(c.head, k), 0) == LeftIn(marked, p, todo - {k})
  {
    var left := LeftIn(marked, p, todo);
    SameLinks(marked, c, p);
    forall x | x in left ensures x.0 == InstrAt(c.head, k) <==> Slot(x.0) == k {
      assert DependsOn(c, x.0, p);
      DependentPlace(c, p, x.0, left);
    }
  }

  lemma ReleasedOne(marked: Core, c: Core, p: nat, all: set<nat>, todo: set<nat>, order: seq<nat>, k: nat)
    requires ReleasedSoFar(marked, c, p, all, todo, order) && k in todo
    requires Releasing(c, p, InstrAt(c.head, k), 0, LeftIn(marked, p, todo))
    ensures var i := InstrAt(c.head, k);
      ReleasedSoFar(marked, ReleaseFrom(c, p, i, 0), p, all, todo - {k}, order + [i])
  {
    var i, left := InstrAt(c.head, k), LeftIn(marked, p, todo);
    var c' := ReleaseFrom(c, p, i, 0);
    assert Rest(left, i, 0) == left;
    ReleaseFromKeeps(c, p, i, 0, left);
    ExtendsMore(marked, c, c');
    LeftNext(marked, c, p, todo, k);
    ReleaseAllMore(marked, p, order, i);
    ListsOneMore(c.head, |c.entry|, all, todo, order, k);
    SameHead(c, p, i, 0);
  }

  lemma {:induction false} SameHead(c: Core, p: nat, i: nat, j: nat)
    requires WellFormed(c) && i < |c.entry| && j <= SOURCES
    ensures ReleaseFrom(c, p, i, j).head == c.head
    decreases SOURCES - j
  {
    if j < SOURCES {
      SourceNext(c, p, i, j);
      SameHead(AfterSource(c, p, i, j), p, i, j + 1);
    }
  }

  lemma ReleaseStart(c: Core, p: nat, row: Row)
    requires Inv(c, {}) && c.head <= p < c.next && c.entry[p].executed == Inflight && RowOk(row, c, p)
    ensures var marked := MarkCompleted(c, p);
      ReleasedSoFar(marked, marked, p, row.all, row.all, []) && RowOk(row, marked, p)
  {
    var marked := MarkCompleted(c, p);
    MarkKeeps(c, p);
    assert forall i: nat :: i < |c.entry| ==> DependsOn(marked, i, p) == DependsOn(c, i, p);
    assert LinksTo(marked, p) == LinksTo(c, p);
    forall i | marked.head <= i < |marked.entry| ensures RowAt(row, marked, p, i) {
      assert RowAt(row, c, p, i);
    }
    forall x | x in LinksTo(c, p) ensures Slot(x.0) in row.all {
      assert DependsOn(c, x.0, p);
      DependentPlace(c, p, x.0, {});
      assert RowAt(row, c, p, x.0);
    }
    assert LeftIn(marked, p, row.all) == LinksTo(c, p);
  }

  /** When every slot of the row is done, every dependent has been released, once. */
  lemma ReleaseEnd(c0: Core, c: Core, p: nat, row: Row, order: seq<nat>)
    requires WellFormed(c0) && c0.head <= p < |c0.entry| && RowOk(row, c0, p) && Inv(c0, {})
    requires c0.entry[p].executed == Inflight
    requires ReleasedSoFar(MarkCompleted(c0, p), c, p, row.all, {}, order)
    ensures Enabled(c0, CompleteOne(p, order)) && c == Complete(c0, p, order)
  {
    forall i: nat | DependsOn(c0, i, p) ensures i in order {
      DependentPlace(c0, p, i, {});
      assert RowAt(row, c0, p, i);
    }
  }

  /** Only instructions in the buffer execute. */
  lemma ExecutingPlace(e: seq<RobEntry>, d: seq<Row>, head: nat, tail: nat, occupancy: nat, q0: seq<nat>, q1: seq<nat>,
                       c: Core, k: nat)
    requires c in Shown(e, d, head, tail, occupancy, q0, q1) && Reached(c) && k < ROB_SIZE && e[k].executed == Inflight
    ensures var p := InstrAt(c.head, k);
      && p < |c.entry| && c.entry[p].executed == Inflight && RowOk(d[k], c, p)
      && MarkCompleted(c, p) in Shown(e[k := e[k].(executed := Completed)], d, head, tail, occupancy, q0, q1)
      && ReleasedSoFar(MarkCompleted(c, p), MarkCompleted(c, p), p, d[k].all, d[k].all, [])
  {
    var p := InstrAt(c.head, k);
    assert Held(e, d, c, p);
    ChangeShown(e, d, head, tail, occupancy, q0, q1, c, MarkCompleted(c, p), p, q0, q1);
    ReachedKeeps(c);
    assert p >= c.next ==> FreshOk(c.entry[p]);
    ReleaseStart(c, p, d[k]);
  }

  lemma RowOf(e: seq<RobEntry>, d: seq<Row>, head: nat, tail: nat, occupancy: nat, q0: seq<nat>, q1: seq<nat>,
              c: Core, p: nat)
    requires c in Shown(e, d, head, tail, occupancy, q0, q1) && c.head <= p < |c.entry|
    ensures WellFormed(c) && RowOk(d[Slot(p)], c, p)
  {
    assert Held(e, d, c, p);
  }

  // ----- Retirement and memory instructions -------------------------------------------------

  lemma RetireIndexed(head: nat, tail: nat, occupancy: nat, c: Core)
    requires Indexed(head, tail, occupancy, c) && c.head < |c.entry|
    ensures Indexed(Next(head), tail, occupancy - 1, Retire(c))
  {}

  lemma RetireShown(e: seq<RobEntry>, d: seq<Row>, head: nat, tail: nat, occupancy: nat, q0: seq<nat>, q1: seq<nat>,
                    c: Core)
    requires c in Shown(e, d, head, tail, occupancy, q0, q1) && Reached(c) && occupancy > 0
    requires e[head].executed == Completed
    ensures Enabled(c, RetireOne) && Reached(Retire(c))
    ensures Retire(c) in Shown(e[head := EMPTY], d[head := NO_WAITERS], Next(head), tail, occupancy - 1, q0, q1)
  {
    assert Held(e, d, c, c.head);
    ReachedKeeps(c);
    ReachedStep(c, RetireOne);
    RetireHolds(e, d, c);
    VacantRetired(e, c.head, |c.entry|);
    RetireIndexed(head, tail, occupancy, c);
  }

  /** A memory instruction that is ready and has found its queue entries starts. */
  lemma MemoryShown(e: seq<RobEntry>, d: seq<Row>, head: nat, tail: nat, occupancy: nat, q0: seq<nat>, q1: seq<nat>,
                    c: Core, k: nat)
    requires c in Shown(e, d, head, tail, occupancy, q0, q1) && Reached(c) && k < ROB_SIZE
    requires e[k].memory && e[k].ready && e[k].scheduled == Inflight
    ensures var i := InstrAt(c.head, k);
      && Enabled(c, StartMemory(i)) && Reached(Start(c, i)) && e[k].executed == Idle
      && Start(c, i) in Shown(e[k := e[k].(scheduled := Completed, executed := Inflight)], d, head, tail,
                              occupancy, q0, q1)
  {
    var i := InstrAt(c.head, k);
    assert Held(e, d, c, i);
    ReachedKeeps(c);
    assert if i < c.next then ScheduledOk(c, i, {}) else FreshOk(c.entry[i]);
    ReachedStep(c, StartMemory(i));
    ChangeShown(e, d, head, tail, occupancy, q0, q1, c, Start(c, i), i, q0, q1);
  }

  // ----- A cycle of scheduling --------------------------------------------------------------

  /** The next n instructions scheduled, in program order. */
  function Scheduled(c: Core, n: nat): (c': Core)
    requires WellFormed(c) && c.next + n <= |c.entry|
    ensures WellFormed(c') && |c'.entry| == |c.entry| && c'.head == c.head && c'.next == c.next + n
  {
    if n == 0 then c else Schedule(Scheduled(c, n - 1))
  }

  /** c' is c with the next n instructions scheduled. */
  ghost predicate InOrder(c: Core, n: nat, c': Core) {
    WellFormed(c) && c.next + n <= |c.entry| && c' == Scheduled(c, n)
  }

  ghost predicate SlotStep(c: Core, scheduled: bool, c': Core) {
    WellFormed(c) && if scheduled then c.next < |c.entry| && c' == Schedule(c) else c' == c
  }

  lemma InOrderMore(c: Core, n: nat, c1: Core, scheduled: bool, c2: Core) returns (n': nat)
    requires InOrder(c, n, c1) && SlotStep(c1, scheduled, c2)
    ensures InOrder(c, n', c2) && n' == n + One(scheduled)
  {
    n' := if scheduled then n + 1 else n;
  }

  /** From entries e to e', a cycle of scheduling has come as far as slot i: it found the slots from the head to there
      filled and due, and left none of them unscheduled; the others it left alone. */
  ghost predicate CameTo(e: seq<RobEntry>, e': seq<RobEntry>, due: seq<bool>, head: nat, i: nat) {
    && |e| == |e'| == |due| == ROB_SIZE && head <= i <= ROB_SIZE
    && (forall k :: head <= k < i ==>
         e[k].fetched && due[k] && k - head < SCHEDULER_SIZE && e'[k].scheduled != Idle)
    && (forall k :: 0 <= k < ROB_SIZE && !(head <= k < i) ==> e'[k] == e[k])
  }

  lemma CameMore(e: seq<RobEntry>, e1: seq<RobEntry>, e2: seq<RobEntry>, due: seq<bool>, head: nat, i: nat, i': nat)
    requires CameTo(e, e1, due, head, i) && i' == i + 1 <= ROB_SIZE && |e2| == ROB_SIZE
    requires e[i].fetched && due[i] && i - head < SCHEDULER_SIZE && e2[i].scheduled != Idle
    requires forall k :: 0 <= k < ROB_SIZE && k != i ==> e2[k] == e1[k]
    ensures CameTo(e, e2, due, head, i')
  {}

  /** It stops there: at the end of the ring, at a slot that is empty or not due, or when it has looked at enough. */
  predicate StopsAt(e: seq<RobEntry>, due: seq<bool>, head: nat, stop: nat)
    requires |e| == |due| == ROB_SIZE && head <= stop <= ROB_SIZE
  {
    stop == ROB_SIZE || !e[stop].fetched || !due[stop] || stop - head == SCHEDULER_SIZE
  }

  /** The slots from low up to high that are unscheduled. */
  function Unscheduled(e: seq<RobEntry>, low: nat, high: nat): set<nat> {
    set k: nat | low <= k < high && k < |e| && e[k].scheduled == Idle
  }

  lemma UnscheduledMore(e: seq<RobEntry>, low: nat, i: nat, i': nat)
    requires low <= i < |e| && i' == i + 1
    ensures |Unscheduled(e, low, i')| == |Unscheduled(e, low, i)| + One(e[i].scheduled == Idle)
  {
    assert Unscheduled(e, low, i') == Unscheduled(e, low, i) + if e[i].scheduled == Idle then {i} else {};
  }

  /** If the older instructions have been scheduled and this one in the buffer has not, it is the next. */
  lemma NextSlot(e: seq<RobEntry>, d: seq<Row>, head: nat, tail: nat, occupancy: nat, q0: seq<nat>, q1: seq<nat>,
                 c: Core, k: nat)
    requires c in Shown(e, d, head, tail, occupancy, q0, q1) && Reached(c) && head <= k < ROB_SIZE && e[k].fetched
    requires c.head + (k - head) <= c.next
    ensures WellFormed(c) && c.head + (k - head) < |c.entry| && k == Slot(c.head + (k - head))
    ensures e[k].scheduled == Idle <==> c.head + (k - head) == c.next
  {
    var i := c.head + (k - head);
    assert InstrAt(c.head, k) == i;
    assert Held(e, d, c, i);
    ReachedKeeps(c);
    assert if i < c.next then ScheduledOk(c, i, {}) else FreshOk(c.entry[i]);
  }

  class Scheduler {
    const rob: ReorderBuffer
    const rte0: Ring
    const rte1: Ring
    var tail: nat
    var occupancy: nat
    /** The state of module Registers that it is in. */
    ghost var core: Core

    ghost predicate Apart()
      reads this
    {
      && rte0 != rte1 && rte0.place != rte1.place
      && rte0.place.Length == rte1.place.Length == ROB_SIZE == rte0.free == rte1.free
    }

    /** The arrays, rings and indices show this state. */
    ghost predicate Shows(c: Core)
      reads this, rob, rob.entry, rob.dependents, rte0, rte0.place, rte1, rte1.place
    {
      && Apart() && rte0.Valid() && rte1.Valid()
      && c in Shown(rob.entry[..], rob.dependents[..], rob.head, tail, occupancy, rte0.contents, rte1.contents)
    }

    ghost predicate Valid()
      reads this, rob, rob.entry, rob.dependents, rte0, rte0.place, rte1, rte1.place
    {
      Reached(core) && Shows(core)
    }

    constructor ()
      ensures Valid() && core == BOOT
      ensures fresh(rob) && fresh(rob.entry) && fresh(rob.dependents)
      ensures fresh(rte0) && fresh(rte0.place) && fresh(rte1) && fresh(rte1.place)
    {
      rob := new ReorderBuffer();
      rte0 := new Ring(ROB_SIZE, ROB_SIZE);
      rte1 := new Ring(ROB_SIZE, ROB_SIZE);
      tail, occupancy := 0, 0;
      core := BOOT;
      ReachedBoot();
    }

    /** `add_to_rob`: the instruction takes the slot at the tail, which is empty. */
    method AddToRob(sources: seq<nat>, dests: seq<nat>, memory: bool)
      requires Valid() && occupancy < ROB_SIZE && |sources| == SOURCES
      modifies this, rob.entry, rob.dependents
      ensures Valid() && core == Dispatch(old(core), sources, dests, memory)
    {
      DispatchShown(rob.entry[..], rob.dependents[..], rob.head, tail, occupancy, rte0.contents, rte1.contents, core,
                    sources, dests, memory);
      assert rob.entry[..][tail] == EMPTY;
      rob.Put(tail, NewEntry(sources, dests, memory));
      tail := Next(tail);
      occupancy := occupancy + 1;
      core := Dispatch(core, sources, dests, memory);
    }

    /** The links of the oldest unscheduled instruction, and its new status. */
    method LinkSources(current: nat, ghost c: Core) returns (ghost links: seq<Option<nat>>)
      requires Holds(rob.entry[..], rob.dependents[..], c) && Reached(c) && c.next < |c.entry|
      requires rob.head == Slot(c.head) && current == Slot(c.next)
      modifies rob.entry, rob.dependents
      ensures FoundLinks(c, links)
      ensures rob.entry[..] == old(rob.entry[..])[current := Image(Schedule(c).entry[c.next])]
      ensures rob.dependents[..] == LinkedRows(old(rob.dependents[..]), current, links)
    {
      ghost var e, d := rob.entry[..], rob.dependents[..];
      NoLinksYet(e, d, c);
      rob.Update(current, rob.entry[current].(ready := true));
      links := rob.RegDependency(current, c.entry, c.head, c.next);
      LinksFound(c, links);
      ScanResult(e, d, c, links);
      rob.Update(current, rob.entry[current].(scheduled := if rob.entry[current].memory then Inflight else Completed));
    }

    /** An instruction that waits for nothing enters ring 1. */
    method EnterIfReady(current: nat)
      requires Apart() && current < rob.entry.Length && current < ROB_SIZE && rte1.Valid()
      requires !rob.entry[current].memory && rob.entry[current].ready ==> |rte1.contents| < ROB_SIZE
      modifies rte1`tail, rte1`contents, rte1.place
      ensures rte1.Valid() && rte1.contents ==
        if !rob.entry[current].memory && rob.entry[current].ready then old(rte1.contents) + [current]
          else old(rte1.contents)
    {
      if !rob.entry[current].memory && rob.entry[current].ready {
        rte1.Push(current);
      }
    }

    /** `do_scheduling` of the oldest unscheduled instruction, which is in this slot. */
    method DoScheduling(current: nat)
      requires Valid() && core.next < |core.entry| && current == Slot(core.next)
      modifies this`core, rob.entry, rob.dependents, rte1`tail, rte1`contents, rte1.place
      ensures Valid() && core == Schedule(old(core))
      ensures forall k :: 0 <= k < rob.entry.Length && k != current ==> rob.entry[k] == old(rob.entry[k])
      ensures current < rob.entry.Length && rob.entry[current].scheduled != Idle
    {
      ghost var c, e, d := core, rob.entry[..], rob.dependents[..];
      ghost var links := LinkSources(current, c);
      assert forall k :: 0 <= k < |e| && k != current ==> rob.entry[..][k] == e[k];
      ScheduleShown(e, d, rob.head, tail, occupancy, rte0.contents, rte1.contents, c, links);
      assert rob.entry[current] == Image(Schedule(c).entry[c.next]);
      EnterIfReady(current);
      core := Schedule(c);
    }

    /** `execute_instruction`, one turn of either loop: the head of the ring starts if it is due. */
    method ExecuteHead(zero: bool, due: bool) returns (started: bool)
      requires Valid()
      modifies this`core, rob.entry, rte0`head, rte0`contents, rte0.place, rte1`head, rte1`contents, rte1.place
      ensures Valid() && started == (due && (if zero then old(core).rte0 else old(core).rte1) != [])
      ensures started ==> Enabled(old(core), ExecuteOne(zero)) && core == Step(old(core), ExecuteOne(zero))
      ensures !started ==> core == old(core)
    {
      var ring := if zero then rte0 else rte1;
      var slot := ring.Peek();
      started := slot < ROB_SIZE && due;
      if started {
        DoExecution(zero, ring, slot);
      }
    }

    /** `do_execution` of the slot at the head of a ring, which leaves the ring. */
    method DoExecution(zero: bool, ring: Ring, slot: nat)
      requires Valid() && ring == (if zero then rte0 else rte1) && ring.contents != [] && slot == ring.contents[0]
      modifies this`core, rob.entry, ring`head, ring`contents, ring.place
      ensures Valid() && Enabled(old(core), ExecuteOne(zero)) && core == Step(old(core), ExecuteOne(zero))
    {
      ghost var c := core;
      ExecuteShown(rob.entry[..], rob.dependents[..], rob.head, tail, occupancy, rte0.contents, rte1.contents, c, zero);
      Begin(slot, ring);
      core := Execute(c, zero);
    }

    method Begin(slot: nat, ring: Ring)
      requires slot < rob.entry.Length && ring.Valid() && ring.contents != []
      modifies rob.entry, ring`head, ring`contents, ring.place
      ensures rob.entry[..] == old(rob.entry[..])[slot := old(rob.entry[slot]).(executed := Inflight)]
      ensures ring.Valid() && ring.contents == old(ring.contents)[1..]
    {
      rob.Update(slot, rob.entry[slot].(executed := Inflight));
      ring.Pop();
    }

    /** `reg_RAW_release`, one link: the slot waits for one source less; with the last it becomes ready. */
    method ReleaseOne(k: nat, ghost p: nat, ghost i: nat, ghost j: nat, ghost pending: set<(nat, nat)>)
      requires Shows(core) && Releasable(core, p, i, j, pending) && k == Slot(i)
      modifies this`core, rob.entry, rte0`tail, rte0`contents, rte0.place
      ensures WellFormed(old(core)) && core == ReleaseLink(old(core), i)
      ensures Shows(core)
    {
      ghost var c := core;
      ReleaseRoom(c, p, i, j, pending);
      ReleaseShown(rob.entry[..], rob.dependents[..], rob.head, tail, occupancy, rte0.contents, rte1.contents, c, i);
      Lower(k);
      core := ReleaseLink(c, i);
    }

    method Lower(k: nat)
      requires Apart() && k < rob.entry.Length && rte0.Valid() && k < ROB_SIZE
      requires rob.entry[k].waits == 1 && !rob.entry[k].memory ==> |rte0.contents| < ROB_SIZE
      modifies rob.entry, rte0`tail, rte0`contents, rte0.place
      ensures rob.entry[..] == old(rob.entry[..])[k := ReleasedEntry(old(rob.entry[k]))]
      ensures rte0.Valid() && rte0.contents ==
        if old(rob.entry[k].waits == 1 && !rob.entry[k].memory) then old(rte0.contents) + [k] else old(rte0.contents)
    {
      rob.entry[k] := rob.entry[k].(waits := rob.entry[k].waits - 1);
      if rob.entry[k].waits == 0 {
        rob.entry[k] := rob.entry[k].(ready := true);
        if rob.entry[k].memory {
          rob.entry[k] := rob.entry[k].(scheduled := Inflight);
        } else {
          rob.entry[k] := rob.entry[k].(scheduled := Completed);
          rte0.Push(k);
        }
      }
    }

    /** One source of a dependent of p. */
    method ReleaseSource(k: nat, from_: nat, ghost p: nat, ghost i: nat, j: nat, ghost pending: set<(nat, nat)>)
      requires Shows(core) && Releasing(core, p, i, j, pending) && j < SOURCES && k == Slot(i) && from_ == Slot(p)
      modifies this`core, rob.entry, rte0`tail, rte0`contents, rte0.place
      ensures Shows(core) && Releasing(core, p, i, j + 1, pending) && core == AfterSource(old(core), p, i, j)
    {
      ghost var c := core;
      RowSays(rob.entry[..], rob.dependents[..], c, p, i);
      if k in rob.dependents[from_].sources[j] {
        ReleasingLink(c, p, i, j, pending);
        ReleaseOne(k, p, i, j, Rest(pending, i, j));
      } else {
        ReleasingOther(c, p, i, j, pending);
      }
    }

    /** The links of one dependent to p. */
    method ReleaseSources(k: nat, from_: nat, ghost p: nat, ghost i: nat, ghost pending: set<(nat, nat)>)
      requires Shows(core) && Releasing(core, p, i, 0, pending) && k == Slot(i) && from_ == Slot(p)
      modifies this`core, rob.entry, rte0`tail, rte0`contents, rte0.place
      ensures Shows(core) && Releasing(core, p, i, SOURCES, pending)
      ensures WellFormed(old(core)) && core == ReleaseFrom(old(core), p, i, 0)
    {
      ghost var end := ReleaseFrom(core, p, i, 0);
      var j := 0;
      while j < SOURCES
        invariant 0 <= j <= SOURCES && Shows(core) && Releasing(core, p, i, j, pending)
        invariant ReleaseFrom(core, p, i, j) == end
      {
        SourceNext(core, p, i, j);
        ReleaseSource(k, from_, p, i, j, pending);
        j := j + 1;
      }
    }

    /** One dependent of p, in slot k. */
    method ReleaseNext(k: nat, from_: nat, ghost p: nat, ghost marked: Core, ghost todo: set<nat>,
                       ghost order: seq<nat>)
      returns (ghost order': seq<nat>)
      requires Shows(core) && from_ == Slot(p) && k in todo
      requires ReleasedSoFar(marked, core, p, rob.dependents[from_].all, todo, order)
      modifies this`core, rob.entry, rte0`tail, rte0`contents, rte0.place
      ensures Shows(core) && ReleasedSoFar(marked, core, p, rob.dependents[from_].all, todo - {k}, order')
    {
      ghost var c := core;
      ghost var i := InstrAt(c.head, k);
      RowOf(rob.entry[..], rob.dependents[..], rob.head, tail, occupancy, rte0.contents, rte1.contents, c, p);
      NextRelease(marked, c, p, rob.dependents[from_], todo, order, k);
      ReleasedOne(marked, c, p, rob.dependents[from_].all, todo, order, k);
      ReleaseSources(k, from_, p, i, LeftIn(marked, p, todo));
      order' := order + [i];
    }

    /** `reg_RAW_release`: every dependent of p, in whatever order its set lists them. */
    method RegRawRelease(from_: nat, ghost p: nat) returns (ghost order: seq<nat>)
      requires Shows(core) && from_ == Slot(p)
      requires ReleasedSoFar(core, core, p, rob.dependents[from_].all, rob.dependents[from_].all, [])
      modifies this`core, rob.entry, rte0`tail, rte0`contents, rte0.place
      ensures Shows(core) && ReleasedSoFar(old(core), core, p, rob.dependents[from_].all, {}, order)
    {
      ghost var marked := core;
      var todo := rob.dependents[from_].all;
      order := [];
      while todo != {}
        invariant Shows(core) && ReleasedSoFar(marked, core, p, rob.dependents[from_].all, todo, order)
        decreases |todo|
      {
        var k :| k in todo;
        order := ReleaseNext(k, from_, p, marked, todo, order);
        todo := todo - {k};
      }
    }

    /** `complete_execution`: an executing instruction that is due completes and wakes its dependents. */
    method CompleteExecution(k: nat, due: bool) returns (completed: bool, ghost order: seq<nat>)
      requires Valid() && k < ROB_SIZE
      modifies this`core, rob.entry, rte0`tail, rte0`contents, rte0.place
      ensures Valid() && completed == (due && old(rob.entry[k]).executed == Inflight)
      ensures completed ==> var ev := CompleteOne(InstrAt(old(core).head, k), order);
        Enabled(old(core), ev) && core == Step(old(core), ev)
      ensures !completed ==> core == old(core)
    {
      ghost var c := core;
      order := [];
      completed := rob.entry[k].executed == Inflight && due;
      if completed {
        ghost var p := InstrAt(c.head, k);
        ghost var row := rob.dependents[k];
        ExecutingPlace(rob.entry[..], rob.dependents[..], rob.head, tail, occupancy, rte0.contents, rte1.contents,
                       c, k);
        rob.Update(k, rob.entry[k].(executed := Completed));
        core := MarkCompleted(c, p);
        order := RegRawRelease(k, p);
        ReachedKeeps(c);
        ReleaseEnd(c, core, p, row, order);
        ReachedStep(c, CompleteOne(p, order));
      }
    }

    /** `do_memory_scheduling`, when all loads and stores of the instruction have been added. */
    method StartMemoryInstruction(k: nat)
      requires Valid() && k < ROB_SIZE && rob.entry[k].memory && rob.entry[k].ready
      requires rob.entry[k].scheduled == Inflight
      modifies this`core, rob.entry
      ensures Valid() && var ev := StartMemory(InstrAt(old(core).head, k));
        Enabled(old(core), ev) && core == Step(old(core), ev)
    {
      ghost var c := core;
      MemoryShown(rob.entry[..], rob.dependents[..], rob.head, tail, occupancy, rte0.contents, rte1.contents, c, k);
      var e := rob.entry[k].(scheduled := Completed);
      if e.executed == Idle {
        e := e.(executed := Inflight);
      }
      rob.Update(k, e);
      core := Start(c, InstrAt(c.head, k));
    }

    /** `retire_rob`, for the instruction at the head. */
    method RetireHead()
      requires Valid() && occupancy > 0 && rob.entry[rob.head].executed == Completed
      modifies this`core, this`occupancy, rob`head, rob.entry, rob.dependents
      ensures Valid() && Enabled(old(core), RetireOne) && core == Retire(old(core))
    {
      RetireShown(rob.entry[..], rob.dependents[..], rob.head, tail, occupancy, rte0.contents, rte1.contents, core);
      rob.Put(rob.head, EMPTY);
      rob.head := Next(rob.head);
      occupancy := occupancy - 1;
      core := Retire(core);
    }

    /** A slot of the cycle: schedule the instruction in it if that has not been done. */
    method ScheduleSlot(i: nat) returns (scheduled: bool)
      requires Valid() && rob.head <= i < ROB_SIZE && rob.entry[i].fetched && core.head + (i - rob.head) <= core.next
      modifies this`core, rob.entry, rob.dependents, rte1`tail, rte1`contents, rte1.place
      ensures Valid() && SlotStep(old(core), scheduled, core) && scheduled == (old(rob.entry[i]).scheduled == Idle)
      ensures forall k :: 0 <= k < rob.entry.Length && k != i ==> rob.entry[k] == old(rob.entry[k])
      ensures i < rob.entry.Length && rob.entry[i].scheduled != Idle
      ensures core.head + (i - rob.head) < core.next
    {
      NextSlot(rob.entry[..], rob.dependents[..], rob.head, tail, occupancy, rte0.contents, rte1.contents, core, i);
      scheduled := rob.entry[i].scheduled == Idle;
      if scheduled {
        DoScheduling(i);
      }
    }

    /** `schedule_instruction`: from the head to the end of the ring, stopping at the first slot that is empty
        or not due, or when enough have been looked at.  (The limit it compares the head with is always 0, so
        the slots before the head wait until the head has wrapped.) */
    method ScheduleInstruction(due: seq<bool>) returns (ghost n: nat, ghost stop: nat)
      requires Valid() && |due| == ROB_SIZE == rob.entry.Length
      modifies this`core, rob.entry, rob.dependents, rte1`tail, rte1`contents, rte1.place
      ensures Valid() && InOrder(old(core), n, core)
      ensures CameTo(old(rob.entry[..]), rob.entry[..], due, rob.head, stop)
      ensures StopsAt(old(rob.entry[..]), due, rob.head, stop)
      ensures n == |Unscheduled(old(rob.entry[..]), rob.head, stop)|
    {
      ghost var c, e := core, rob.entry[..];
      InScope();
      n := 0;
      var i, searched := rob.head, 0;
      assert Unscheduled(e, i, i) == {};
      while i < ROB_SIZE && rob.entry[i].fetched && due[i] && searched < SCHEDULER_SIZE
        invariant rob.head <= i <= ROB_SIZE && Valid() && core.head + (i - rob.head) <= core.next
        invariant searched == i - rob.head <= SCHEDULER_SIZE
        invariant InOrder(c, n, core) && n == |Unscheduled(e, rob.head, i)|
        invariant CameTo(e, rob.entry[..], due, rob.head, i)
      {
        ghost var c1, k, e1 := core, i, rob.entry[..];
        assert rob.entry[i] == e[i];
        var scheduled := ScheduleSlot(i);
        searched := searched + 1;
        i := i + 1;
        CameMore(e, e1, rob.entry[..], due, rob.head, k, i);
        UnscheduledMore(e, rob.head, k, i);
        n := InOrderMore(c, n, c1, scheduled, core);
      }
      stop := i;
      assert i < ROB_SIZE ==> rob.entry[i] == e[i];
    }

    lemma InScope()
      requires Valid()
      ensures rob.head < ROB_SIZE == rob.entry.Length && WellFormed(core) && core.head <= core.next <= |core.entry|
    {
      ReachedKeeps(core);
    }
  }
}
