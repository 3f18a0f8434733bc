/** Register dependencies in the out-of-order core.

    Instructions are named by their program order.  Each is linked, for every source register, to the
    youngest older uncompleted writer, and counts its links; completion releases them.  Main results,
    over every interleaving of dispatch, scheduling, execution, completion and retirement: an executing
    instruction's sources have been produced, the counter is exact, no instruction becomes ready to
    execute twice, the ready rings never overflow, and the oldest instruction is never stuck. */
module Registers {

  import opened Common
  import opened CoreConfig

  /** The number of source registers. */
  const SOURCES: nat := 4

  datatype Status = Idle | Inflight | Completed

  /** `producers[j]` is the instruction that source j was linked to when the entry was scheduled. */
  datatype Entry = Entry(sources: seq<nat>, dests: seq<nat>, memory: bool, scheduled: Status, executed: Status,
                         ready: bool, waits: int, producers: seq<Option<nat>>)

  /** All instructions dispatched so far; those from head on are in the buffer, those before next have
      been scheduled.  The ready-to-execute rings are queues, and `entered` counts entries into them. */
  datatype Core = Core(entry: seq<Entry>, head: nat, next: nat, rte0: seq<nat>, rte1: seq<nat>, entered: multiset<nat>)

  const BOOT := Core([], 0, 0, [], [], multiset{})

  const NO_LINKS: seq<Option<nat>> := [None, None, None, None]

  // ----- Dependencies -----------------------------------------------------------------------

  predicate Writes(e: Entry, register: nat) {
    register != 0 && register in e.dests
  }

  /** The youngest uncompleted writer of a register among the instructions head .. i - 1. */
  function Producer(s: seq<Entry>, head: nat, i: nat, register: nat): (p: Option<nat>)
    requires i <= |s|
    ensures p.Some? ==> head <= p.value < i && s[p.value].executed != Completed && Writes(s[p.value], register)
    ensures forall k :: (if p.Some? then p.value else head) < k < i && k >= head ==>
      s[k].executed == Completed || !Writes(s[k], register)
    ensures p.None? ==> forall k :: head <= k < i ==> s[k].executed == Completed || !Writes(s[k], register)
  {
    if i <= head then None
    else if s[i - 1].executed != Completed && Writes(s[i - 1], register) then Some(i - 1)
    else Producer(s, head, i - 1, register)
  }

  function LinkOf(s: seq<Entry>, head: nat, c: nat, j: nat): Option<nat>
    requires c < |s| && j < SOURCES && |s[c].sources| == SOURCES
  {
    if s[c].sources[j] == 0 then None else Producer(s, head, c, s[c].sources[j])
  }

  function Links(s: seq<Entry>, head: nat, c: nat): (links: seq<Option<nat>>)
    requires c < |s| && |s[c].sources| == SOURCES
    ensures |links| == SOURCES
  {
    [LinkOf(s, head, c, 0), LinkOf(s, head, c, 1), LinkOf(s, head, c, 2), LinkOf(s, head, c, 3)]
  }

  // ----- Steps ------------------------------------------------------------------------------

  predicate WellFormed(c: Core) {
    forall i :: 0 <= i < |c.entry| ==> |c.entry[i].sources| == SOURCES && |c.entry[i].producers| == SOURCES
  }

  /** An instruction enters the buffer. */
  function Dispatch(c: Core, sources: seq<nat>, dests: seq<nat>, memory: bool): Core {
    c.(entry := c.entry + [Entry(sources, dests, memory, Idle, Idle, false, 0, NO_LINKS)])
  }

  /** `do_scheduling` of the oldest unscheduled instruction. */
  function Schedule(c: Core): (c': Core)
    requires WellFormed(c) && c.next < |c.entry|
    ensures WellFormed(c')
  {
    var i := c.next;
    var e := c.entry[i];
    var links := Links(c.entry, c.head, i);
    var waits := One(links[0].Some?) + One(links[1].Some?) + One(links[2].Some?) + One(links[3].Some?);
    var e' := e.(producers := links, waits := waits, ready := waits == 0,
                 scheduled := if e.memory then Inflight else Completed);
    var c' := c.(entry := c.entry[i := e'], next := i + 1);
    if !e.memory && waits == 0 then c'.(rte1 := c.rte1 + [i], entered := c.entered + multiset{i}) else c'
  }

  /** The instruction at the head of a ready ring, or a ready memory instruction, starts. */
  function Start(c: Core, i: nat): (c': Core)
    requires WellFormed(c) && i < |c.entry|
    ensures WellFormed(c')
  {
    var e := c.entry[i];
    c.(entry := c.entry[i := if e.memory then e.(scheduled := Completed, executed := Inflight)
                        else e.(executed := Inflight)])
  }

  /** One link of instruction i is released; with the last one it becomes ready. */
  function ReleaseLink(c: Core, i: nat): (c': Core)
    requires WellFormed(c) && i < |c.entry|
    ensures WellFormed(c') && |c'.entry| == |c.entry|
  {
    var e := c.entry[i];
    if e.waits != 1 then c.(entry := c.entry[i := e.(waits := e.waits - 1)]) else
    var e' := e.(waits := 0, ready := true, scheduled := if e.memory then Inflight else Completed);
    var c' := c.(entry := c.entry[i := e']);
    if e.memory then c' else c'.(rte0 := c.rte0 + [i], entered := c.entered + multiset{i})
  }

  /** The links of instruction i to p, from source j on. */
  function ReleaseFrom(c: Core, p: nat, i: nat, j: nat): (c': Core)
    requires WellFormed(c) && i < |c.entry| && j <= SOURCES
    ensures WellFormed(c') && |c'.entry| == |c.entry|
    decreases SOURCES - j, i
  {
    if j == SOURCES then c else
    ReleaseFrom(if c.entry[i].producers[j] == Some(p) then ReleaseLink(c, i) else c, p, i, j + 1)
  }

  /** `reg_RAW_release`: the dependents of p, in the order in which its set lists them. */
  function ReleaseAll(c: Core, p: nat, order: seq<nat>): (c': Core)
    requires WellFormed(c) && forall k :: 0 <= k < |order| ==> order[k] < |c.entry|
    ensures WellFormed(c') && |c'.entry| == |c.entry|
    decreases |order|
  {
    if order == [] then c else ReleaseAll(ReleaseFrom(c, p, order[0], 0), p, order[1..])
  }

  function MarkCompleted(c: Core, p: nat): (c': Core)
    requires WellFormed(c) && p < |c.entry|
    ensures WellFormed(c') && |c'.entry| == |c.entry|
  {
    c.(entry := c.entry[p := c.entry[p].(executed := Completed)])
  }

  function Complete(c: Core, p: nat, order: seq<nat>): (c': Core)
    requires WellFormed(c) && p < |c.entry| && forall k :: 0 <= k < |order| ==> order[k] < |c.entry|
    ensures WellFormed(c')
  {
    ReleaseAll(MarkCompleted(c, p), p, order)
  }

  /** Instruction i has a source linked to p. */
  predicate DependsOn(c: Core, i: nat, p: nat) {
    i < |c.entry| && Some(p) in c.entry[i].producers
  }

  /** The order lists every dependent of p once. */
  ghost predicate Lists(c: Core, p: nat, order: seq<nat>) {
    && (forall k :: 0 <= k < |order| ==> order[k] < |c.entry|)
    && (forall i: nat :: DependsOn(c, i, p) ==> i in order)
    && (forall k, l :: 0 <= k < l < |order| ==> order[k] != order[l])
  }

  // ----- The invariant ----------------------------------------------------------------------

  /** Source j of instruction i still waits: its producer has not completed, or has and the release of
      this link is still to come. */
  ghost predicate Blocked(c: Core, i: nat, j: nat, pending: set<(nat, nat)>)
    requires WellFormed(c) && i < |c.entry| && j < SOURCES
  {
    && c.entry[i].producers[j].Some? && c.entry[i].producers[j].value < |c.entry|
    && (c.entry[c.entry[i].producers[j].value].executed != Completed || (i, j) in pending)
  }

  ghost function BlockedSources(c: Core, i: nat, pending: set<(nat, nat)>): nat
    requires WellFormed(c) && i < |c.entry|
  {
    One(Blocked(c, i, 0, pending)) + One(Blocked(c, i, 1, pending)) +
    One(Blocked(c, i, 2, pending)) + One(Blocked(c, i, 3, pending))
  }

  /** What holds of a scheduled instruction. */
  ghost predicate ScheduledOk(c: Core, i: nat, pending: set<(nat, nat)>)
    requires WellFormed(c) && i < |c.entry|
  {
    var e := c.entry[i];
    && e.waits == BlockedSources(c, i, pending)
    && (e.ready <==> e.waits == 0)
    && (e.executed != Idle ==> e.ready) && e.scheduled != Idle
    && (e.executed != Idle || !e.memory ==> e.scheduled == Completed)
    && (e.executed == Idle && e.memory ==> e.scheduled == Inflight)
    && (i < c.head ==> e.executed == Completed)
    && (forall j :: 0 <= j < SOURCES && e.producers[j].Some? ==>
         e.producers[j].value < i && Writes(c.entry[e.producers[j].value], e.sources[j]))
  }

  ghost predicate FreshOk(e: Entry) {
    e.executed == Idle && !e.ready && e.waits == 0 && e.scheduled == Idle && e.producers == NO_LINKS
  }

  ghost predicate EntriesOk(c: Core, pending: set<(nat, nat)>) {
    && WellFormed(c) && c.head <= c.next <= |c.entry| <= c.head + ROB_SIZE
    && (forall i :: 0 <= i < c.next ==> ScheduledOk(c, i, pending))
    && (forall i :: c.next <= i < |c.entry| ==> FreshOk(c.entry[i]))
  }

  /** p is the youngest writer of source j of i among the older instructions in the buffer. */
  ghost predicate YoungestWriter(c: Core, p: nat, i: nat, j: nat)
    requires WellFormed(c) && i < |c.entry| && j < SOURCES
  {
    && c.head <= p < i && Writes(c.entry[p], c.entry[i].sources[j])
    && forall q :: p < q < i ==> !Writes(c.entry[q], c.entry[i].sources[j])
  }

  /** The youngest older writer of every source of a scheduled instruction has completed, or the source
      is linked to it. */
  ghost predicate DataflowOk(c: Core)
    requires WellFormed(c)
  {
    forall i, j, p {:trigger YoungestWriter(c, p, i, j)} ::
      0 <= i < c.next && i < |c.entry| && 0 <= j < SOURCES && 0 <= p < i && YoungestWriter(c, p, i, j) ==>
        c.entry[p].executed == Completed || c.entry[i].producers[j] == Some(p)
  }

  /** The queue holds, once each, the instructions that are ready and have not started; every ready
      instruction has entered exactly once. */
  ghost predicate QueueOk(s: seq<Entry>, q: seq<nat>, entered: multiset<nat>) {
    && (forall k :: 0 <= k < |q| ==> q[k] < |s|)
    && (forall i :: 0 <= i < |s| ==> (i in q <==> !s[i].memory && s[i].ready && s[i].executed == Idle))
    && (forall k, l :: 0 <= k < l < |q| ==> q[k] != q[l])
    && (forall i: nat :: entered[i] == One(i < |s| && !s[i].memory && s[i].ready))
  }

  ghost predicate RingsOk(c: Core) {
    QueueOk(c.entry, c.rte0 + c.rte1, c.entered)
  }

  ghost predicate Inv(c: Core, pending: set<(nat, nat)>) {
    EntriesOk(c, pending) && DataflowOk(c) && RingsOk(c)
  }

  // ----- What the steps leave alone ---------------------------------------------------------

  /** c' has the instructions of c, and perhaps more; links stay and completion is final. */
  ghost predicate Extends(c: Core, c': Core)
    requires WellFormed(c) && WellFormed(c')
  {
    && |c.entry| <= |c'.entry| && c.head <= c'.head && c'.next == c.next <= |c.entry|
    && (forall i :: 0 <= i < |c.entry| ==> SameInstruction(c.entry[i], c'.entry[i]))
  }

  ghost predicate SameInstruction(e: Entry, e': Entry) {
    && e'.sources == e.sources && e'.dests == e.dests && e'.memory == e.memory && e'.producers == e.producers
    && (e.executed == Completed ==> e'.executed == Completed)
  }

  lemma YoungestSame(c: Core, c': Core, p: nat, i: nat, j: nat)
    requires WellFormed(c) && WellFormed(c') && c.head <= c'.head && i < |c.entry| <= |c'.entry| && j < SOURCES
    requires forall k :: 0 <= k <= i ==>
      c'.entry[k].sources == c.entry[k].sources && c'.entry[k].dests == c.entry[k].dests
    requires YoungestWriter(c', p, i, j)
    ensures YoungestWriter(c, p, i, j)
  {
    forall q | p < q < i ensures !Writes(c.entry[q], c.entry[i].sources[j]) {
      assert !Writes(c'.entry[q], c'.entry[i].sources[j]);
    }
  }

  lemma DataflowKept(c: Core, c': Core)
    requires WellFormed(c) && WellFormed(c') && Extends(c, c') && DataflowOk(c)
    ensures DataflowOk(c')
  {
    forall i, j, p {:trigger YoungestWriter(c', p, i, j)} |
      0 <= i < c'.next && i < |c'.entry| && 0 <= j < SOURCES && 0 <= p < i && YoungestWriter(c', p, i, j)
      ensures c'.entry[p].executed == Completed || c'.entry[i].producers[j] == Some(p)
    {
      assert forall k :: 0 <= k <= i ==> SameInstruction(c.entry[k], c'.entry[k]);
      YoungestSame(c, c', p, i, j);
    }
  }

  /** A scheduled instruction does not notice steps of others that complete nothing. */
  lemma ScheduledKept(c: Core, c': Core, i: nat, pending: set<(nat, nat)>)
    requires WellFormed(c) && WellFormed(c') && i < |c.entry| <= |c'.entry| && ScheduledOk(c, i, pending)
    requires c'.entry[i] == c.entry[i] && (i < c'.head ==> c.entry[i].executed == Completed)
    requires forall p :: 0 <= p < i ==>
      c'.entry[p].dests == c.entry[p].dests && (c'.entry[p].executed == Completed <==> c.entry[p].executed == Completed)
    ensures ScheduledOk(c', i, pending)
  {
    forall j | 0 <= j < SOURCES ensures Blocked(c', i, j, pending) == Blocked(c, i, j, pending) {}
  }

  // ----- Dispatch and scheduling keep it ----------------------------------------------------

  lemma DispatchKeeps(c: Core, sources: seq<nat>, dests: seq<nat>, memory: bool)
    requires Inv(c, {}) && |c.entry| < c.head + ROB_SIZE && |sources| == SOURCES
    ensures Inv(Dispatch(c, sources, dests, memory), {})
  {
    var c' := Dispatch(c, sources, dests, memory);
    forall i | 0 <= i < c'.next ensures ScheduledOk(c', i, {}) {
      ScheduledKept(c, c', i, {});
    }
    DataflowKept(c, c');
    assert c'.rte0 + c'.rte1 == c.rte0 + c.rte1;
  }

  /** The new links, one for each source with an uncompleted writer in the buffer. */
  lemma NewLinks(c: Core, i: nat, j: nat)
    requires WellFormed(c) && i < |c.entry| && j < SOURCES
    ensures var link := Links(c.entry, c.head, i)[j];
      && link == LinkOf(c.entry, c.head, i, j)
      && (link.Some? ==> link.value < i && c.entry[link.value].executed != Completed)
      && (link.Some? ==> Writes(c.entry[link.value], c.entry[i].sources[j]))
      && (forall p :: 0 <= p < i && YoungestWriter(c, p, i, j) && c.entry[p].executed != Completed ==> link == Some(p))
  {}

  lemma NewScheduled(c: Core)
    requires EntriesOk(c, {}) && c.next < |c.entry|
    ensures ScheduledOk(Schedule(c), c.next, {})
  {
    var n := c.next;
    var c' := Schedule(c);
    forall j | 0 <= j < SOURCES
      ensures Blocked(c', n, j, {}) == c'.entry[n].producers[j].Some?
      ensures c'.entry[n].producers[j].Some? ==>
        c'.entry[n].producers[j].value < n && Writes(c'.entry[c'.entry[n].producers[j].value], c'.entry[n].sources[j])
    {
      NewLinks(c, n, j);
    }
  }

  lemma ScheduleEntries(c: Core)
    requires EntriesOk(c, {}) && c.next < |c.entry|
    ensures EntriesOk(Schedule(c), {})
  {
    var c' := Schedule(c);
    NewScheduled(c);
    forall i | 0 <= i < c.next ensures ScheduledOk(c', i, {}) {
      ScheduledKept(c, c', i, {});
    }
  }

  lemma ScheduleDataflow(c: Core)
    requires WellFormed(c) && DataflowOk(c) && c.next < |c.entry|
    ensures DataflowOk(Schedule(c))
  {
    var n := c.next;
    var c' := Schedule(c);
    forall i, j, p {:trigger YoungestWriter(c', p, i, j)} |
      0 <= i < c'.next && i < |c'.entry| && 0 <= j < SOURCES && 0 <= p < i && YoungestWriter(c', p, i, j)
      ensures c'.entry[p].executed == Completed || c'.entry[i].producers[j] == Some(p)
    {
      YoungestSame(c, c', p, i, j);
      if i == n {
        NewLinks(c, n, j);
      }
    }
  }

  lemma ScheduleRings(c: Core)
    requires WellFormed(c) && RingsOk(c) && c.next < |c.entry| && FreshOk(c.entry[c.next])
    ensures RingsOk(Schedule(c))
  {
    var n := c.next;
    var c' := Schedule(c);
    var q, q' := c.rte0 + c.rte1, c'.rte0 + c'.rte1;
    if c'.rte1 != c.rte1 {
      assert q' == q[..|q|] + [n] + q[|q|..];
      QueuePush(c.entry, q, q', c.entered, |q|, n, c'.entry[n]);
    } else {
      QueueSame(c.entry, q, c.entered, n, c'.entry[n]);
    }
  }

  lemma ScheduleKeeps(c: Core)
    requires Inv(c, {}) && c.next < |c.entry|
    ensures Inv(Schedule(c), {})
  {
    ScheduleEntries(c);
    ScheduleDataflow(c);
    ScheduleRings(c);
  }

  // ----- Execution --------------------------------------------------------------------------

  /** An instruction that is ready starts; if it came from a ring, it leaves the ring. */
  lemma StartEntries(c: Core, i: nat)
    requires EntriesOk(c, {}) && i < c.next && c.entry[i].ready && c.entry[i].executed == Idle
    ensures EntriesOk(Start(c, i), {}) && Extends(c, Start(c, i))
  {
    var c' := Start(c, i);
    assert ScheduledOk(c, i, {});
    forall j | 0 <= j < SOURCES ensures Blocked(c', i, j, {}) == Blocked(c, i, j, {}) {}
    forall k | 0 <= k < c'.next && k != i ensures ScheduledOk(c', k, {}) {
      ScheduledKept(c, c', k, {});
    }
  }

  lemma QueueWithout(q: seq<nat>, at: nat)
    requires at < |q| && forall k, l :: 0 <= k < l < |q| ==> q[k] != q[l]
    ensures var q' := q[..at] + q[at + 1..];
      && (forall i :: i in q' <==> i in q && i != q[at])
      && (forall k, l :: 0 <= k < l < |q'| ==> q'[k] != q'[l])
  {
    var q' := q[..at] + q[at + 1..];
    forall i | i in q && i != q[at] ensures i in q' {
      var k :| 0 <= k < |q| && q[k] == i;
      assert q'[if k < at then k else k - 1] == i;
    }
  }

  lemma QueuePop(s: seq<Entry>, q: seq<nat>, entered: multiset<nat>, at: nat, e: Entry)
    requires QueueOk(s, q, entered) && at < |q| && e.memory == s[q[at]].memory && e.ready == s[q[at]].ready
    requires e.executed != Idle
    ensures QueueOk(s[q[at] := e], q[..at] + q[at + 1..], entered)
  {
    QueueWithout(q, at);
    var q' := q[..at] + q[at + 1..];
    forall k | 0 <= k < |q'| ensures q'[k] < |s| {
      assert q'[k] in q';
    }
  }

  lemma QueueWith(q: seq<nat>, q': seq<nat>, at: nat, i: nat)
    requires at <= |q| && q' == q[..at] + [i] + q[at..] && i !in q && forall k, l :: 0 <= k < l < |q| ==> q[k] != q[l]
    ensures forall x :: x in q' <==> x in q || x == i
    ensures forall k, l :: 0 <= k < l < |q'| ==> q'[k] != q'[l]
  {
    assert forall k :: 0 <= k < |q'| ==> q'[k] == if k < at then q[k] else if k == at then i else q[k - 1];
    forall x ensures x in q' <==> x in q || x == i {
      if x in q {
        var k :| 0 <= k < |q| && q[k] == x;
        assert q'[if k < at then k else k + 1] == x;
      }
      assert q'[at] == i;
    }
  }

  lemma QueuePush(s: seq<Entry>, q: seq<nat>, q': seq<nat>, entered: multiset<nat>, at: nat, i: nat, e: Entry)
    requires QueueOk(s, q, entered) && i < |s| && !s[i].ready && !e.memory && !s[i].memory && e.ready
    requires e.executed == Idle
    requires at <= |q| && q' == q[..at] + [i] + q[at..]
    ensures QueueOk(s[i := e], q', entered + multiset{i})
  {
    assert i !in q;
    QueueWith(q, q', at, i);
    forall k | 0 <= k < |q'| ensures q'[k] < |s| {
      assert q'[k] in q';
    }
  }

  /** Changes to memory instructions, and to what the queue does not look at, leave it right. */
  lemma QueueSame(s: seq<Entry>, q: seq<nat>, entered: multiset<nat>, i: nat, e: Entry)
    requires QueueOk(s, q, entered) && i < |s| && e.memory == s[i].memory
    requires e.memory || (e.ready == s[i].ready && (e.executed == Idle <==> s[i].executed == Idle))
    ensures QueueOk(s[i := e], q, entered)
  {}

  /** The head of a ring can start: it is ready, and nobody started it before. */
  lemma RingHead(c: Core, zero: bool)
    requires Inv(c, {}) && (if zero then c.rte0 else c.rte1) != []
    ensures var i := (if zero then c.rte0 else c.rte1)[0];
      i < c.next && !c.entry[i].memory && c.entry[i].ready && c.entry[i].executed == Idle
  {
    var i := (if zero then c.rte0 else c.rte1)[0];
    assert i in c.rte0 + c.rte1;
    assert i >= c.next ==> FreshOk(c.entry[i]);
  }

  /** `execute_instruction`: the head of ring 0 or ring 1 starts. */
  function Execute(c: Core, zero: bool): (c': Core)
    requires WellFormed(c) && (if zero then c.rte0 else c.rte1) != []
    requires (if zero then c.rte0 else c.rte1)[0] < |c.entry|
    ensures WellFormed(c')
  {
    if zero then Start(c, c.rte0[0]).(rte0 := c.rte0[1..]) else Start(c, c.rte1[0]).(rte1 := c.rte1[1..])
  }

  lemma ExecuteKeeps(c: Core, zero: bool)
    requires Inv(c, {}) && (if zero then c.rte0 else c.rte1) != []
    ensures (if zero then c.rte0 else c.rte1)[0] < |c.entry| && Inv(Execute(c, zero), {})
  {
    RingHead(c, zero);
    var i := (if zero then c.rte0 else c.rte1)[0];
    var c' := Execute(c, zero);
    StartEntries(c, i);
    DataflowKept(c, Start(c, i));
    DataflowKept(c, c');
    var q := c.rte0 + c.rte1;
    var at := if zero then 0 else |c.rte0|;
    assert q[at] == i && c'.rte0 + c'.rte1 == q[..at] + q[at + 1..];
    QueuePop(c.entry, q, c.entered, at, c'.entry[i]);
    ExecutedEntries(c, i, c');
  }

  lemma ExecutedEntries(c: Core, i: nat, c': Core)
    requires WellFormed(c) && i < |c.entry| && EntriesOk(Start(c, i), {})
    requires c'.entry == Start(c, i).entry && c'.head == c.head && c'.next == c.next
    ensures EntriesOk(c', {})
  {
    forall k | 0 <= k < c'.next ensures ScheduledOk(c', k, {}) {
      ScheduledKept(Start(c, i), c', k, {});
    }
  }

  /** `do_memory_scheduling`, when all its loads and stores have found their queue entries. */
  lemma MemoryStartKeeps(c: Core, i: nat)
    requires Inv(c, {}) && i < c.next && c.entry[i].memory && c.entry[i].ready && c.entry[i].executed == Idle
    ensures Inv(Start(c, i), {})
  {
    StartEntries(c, i);
    DataflowKept(c, Start(c, i));
    QueueSame(c.entry, c.rte0 + c.rte1, c.entered, i, Start(c, i).entry[i]);
  }

  // ----- Completion and release -------------------------------------------------------------

  /** The links to p that its completion is about to release. */
  ghost function LinksTo(c: Core, p: nat): set<(nat, nat)>
    requires WellFormed(c)
  {
    set i: nat, j: nat | i < |c.entry| && j < SOURCES && c.entry[i].producers[j] == Some(p) :: (i, j)
  }

  /** Marking p completed moves its links from "uncompleted" to "about to be released". */
  lemma MarkEntries(c: Core, p: nat)
    requires EntriesOk(c, {}) && p < c.next && c.entry[p].executed == Inflight
    ensures EntriesOk(MarkCompleted(c, p), LinksTo(c, p)) && Extends(c, MarkCompleted(c, p))
  {
    var c' := MarkCompleted(c, p);
    forall i | 0 <= i < c'.next ensures ScheduledOk(c', i, LinksTo(c, p)) {
      assert ScheduledOk(c, i, {});
      forall j | 0 <= j < SOURCES ensures Blocked(c', i, j, LinksTo(c, p)) == Blocked(c, i, j, {}) {
        assert (i, j) in LinksTo(c, p) <==> c.entry[i].producers[j] == Some(p);
      }
    }
  }

  lemma MarkKeeps(c: Core, p: nat)
    requires Inv(c, {}) && p < c.next && c.entry[p].executed == Inflight
    ensures Inv(MarkCompleted(c, p), LinksTo(c, p))
  {
    MarkEntries(c, p);
    DataflowKept(c, MarkCompleted(c, p));
    QueueSame(c.entry, c.rte0 + c.rte1, c.entered, p, MarkCompleted(c, p).entry[p]);
  }

  /** Releasing one pending link: its own instruction waits for one source less. */
  lemma ReleasedSelf(c: Core, i: nat, j: nat, p: nat, pending: set<(nat, nat)>)
    requires EntriesOk(c, pending) && i < c.next && j < SOURCES && (i, j) in pending
    requires c.entry[i].producers[j] == Some(p) && p < |c.entry| && c.entry[p].executed == Completed
    ensures ScheduledOk(ReleaseLink(c, i), i, pending - {(i, j)})
    ensures !c.entry[i].ready && c.entry[i].executed == Idle && c.head <= i
  {
    assert ScheduledOk(c, i, pending) && Blocked(c, i, j, pending);
    forall k | 0 <= k < SOURCES
      ensures Blocked(ReleaseLink(c, i), i, k, pending - {(i, j)}) == (k != j && Blocked(c, i, k, pending))
    {}
  }

  lemma ReleasedOther(c: Core, i: nat, j: nat, k: nat, pending: set<(nat, nat)>)
    requires EntriesOk(c, pending) && i < c.next && k < c.next && k != i && c.entry[i].executed == Idle
    ensures ScheduledOk(ReleaseLink(c, i), k, pending - {(i, j)})
  {
    assert ScheduledOk(c, k, pending);
    forall l | 0 <= l < SOURCES
      ensures Blocked(ReleaseLink(c, i), k, l, pending - {(i, j)}) == Blocked(c, k, l, pending) {}
  }

  lemma ReleaseEntries(c: Core, i: nat, j: nat, p: nat, pending: set<(nat, nat)>)
    requires EntriesOk(c, pending) && i < c.next && j < SOURCES && (i, j) in pending
    requires c.entry[i].producers[j] == Some(p) && p < |c.entry| && c.entry[p].executed == Completed
    ensures EntriesOk(ReleaseLink(c, i), pending - {(i, j)}) && Extends(c, ReleaseLink(c, i))
    ensures !c.entry[i].ready && c.entry[i].executed == Idle
  {
    ReleasedSelf(c, i, j, p, pending);
    forall k | 0 <= k < c.next && k != i ensures ScheduledOk(ReleaseLink(c, i), k, pending - {(i, j)}) {
      ReleasedOther(c, i, j, k, pending);
    }
  }

  lemma ReleaseLinkKeeps(c: Core, i: nat, j: nat, p: nat, pending: set<(nat, nat)>)
    requires Inv(c, pending) && i < c.next && j < SOURCES && (i, j) in pending
    requires c.entry[i].producers[j] == Some(p) && p < |c.entry| && c.entry[p].executed == Completed
    ensures Inv(ReleaseLink(c, i), pending - {(i, j)})
  {
    var c' := ReleaseLink(c, i);
    ReleaseEntries(c, i, j, p, pending);
    DataflowKept(c, c');
    if c.entry[i].waits == 1 && !c.entry[i].memory {
      var q, q' := c.rte0 + c.rte1, c'.rte0 + c'.rte1;
      assert q' == q[..|c.rte0|] + [i] + q[|c.rte0|..];
      QueuePush(c.entry, q, q', c.entered, |c.rte0|, i, c'.entry[i]);
    } else {
      QueueSame(c.entry, c.rte0 + c.rte1, c.entered, i, c'.entry[i]);
    }
  }

  function After(pending: set<(nat, nat)>, i: nat, j: nat): set<(nat, nat)> {
    set x | x in pending && !(x.0 == i && x.1 >= j)
  }

  lemma AfterNext(c: Core, p: nat, i: nat, j: nat, pending: set<(nat, nat)>)
    requires WellFormed(c) && i < |c.entry| && j <= SOURCES && pending <= LinksTo(c, p)
    ensures j == SOURCES ==> After(pending, i, j) == pending
    ensures j < SOURCES ==> After(pending - {(i, j)}, i, j + 1) == After(pending, i, j)
    ensures j < SOURCES && c.entry[i].producers[j] != Some(p) ==> After(pending, i, j + 1) == After(pending, i, j)
  {
    forall x | x in pending ensures x.1 < SOURCES && (x == (i, j) ==> c.entry[i].producers[j] == Some(p)) {
      assert x in LinksTo(c, p);
    }
  }

  lemma LinkScheduled(c: Core, p: nat, i: nat, j: nat, pending: set<(nat, nat)>)
    requires EntriesOk(c, pending)
    requires (i, j) in LinksTo(c, p)
    ensures i < c.next && j < SOURCES && c.entry[i].producers[j] == Some(p)
  {
    assert i >= c.next ==> FreshOk(c.entry[i]);
  }

  lemma SameLinks(c: Core, c': Core, p: nat)
    requires WellFormed(c) && WellFormed(c') && |c'.entry| == |c.entry| && Extends(c, c')
    ensures LinksTo(c', p) == LinksTo(c, p)
  {
    assert forall i :: 0 <= i < |c.entry| ==> SameInstruction(c.entry[i], c'.entry[i]);
  }

  lemma {:induction false} ReleaseFromKeeps(c: Core, p: nat, i: nat, j: nat, pending: set<(nat, nat)>)
    requires Inv(c, pending) && i < |c.entry| && j <= SOURCES && p < c.next && c.entry[p].executed == Completed
    requires pending <= LinksTo(c, p) && forall k: nat :: j <= k && (i, k) in LinksTo(c, p) ==> (i, k) in pending
    ensures var c' := ReleaseFrom(c, p, i, j);
      Inv(c', After(pending, i, j)) && Extends(c, c')
    decreases SOURCES - j
  {
    AfterNext(c, p, i, j, pending);
    var next := j + 1;
    if j < SOURCES && c.entry[i].producers[j] == Some(p) {
      var c1 := ReleaseLink(c, i);
      assert (i, j) in LinksTo(c, p);
      LinkScheduled(c, p, i, j, pending);
      ReleaseLinkKeeps(c, i, j, p, pending);
      ReleaseEntries(c, i, j, p, pending);
      SameLinks(c, c1, p);
      ReleaseFromKeeps(c1, p, i, next, pending - {(i, j)});
      ExtendsMore(c, c1, ReleaseFrom(c1, p, i, next));
    } else if j < SOURCES {
      ReleaseFromKeeps(c, p, i, next, pending);
    }
  }

  lemma ExtendsMore(c: Core, c1: Core, c2: Core)
    requires WellFormed(c) && WellFormed(c1) && WellFormed(c2) && Extends(c, c1) && Extends(c1, c2)
    ensures Extends(c, c2)
  {
    forall i | 0 <= i < |c.entry| ensures SameInstruction(c.entry[i], c2.entry[i]) {
      assert SameInstruction(c.entry[i], c1.entry[i]) && SameInstruction(c1.entry[i], c2.entry[i]);
    }
  }

  function LinksOf(links: set<(nat, nat)>, order: seq<nat>): set<(nat, nat)> {
    set x | x in links && x.0 in order
  }

  lemma {:induction false} ReleaseAllKeeps(c: Core, p: nat, order: seq<nat>)
    requires WellFormed(c) && Inv(c, LinksOf(LinksTo(c, p), order)) && p < c.next && c.entry[p].executed == Completed
    requires forall k :: 0 <= k < |order| ==> order[k] < |c.entry|
    requires forall k, l :: 0 <= k < l < |order| ==> order[k] != order[l]
    ensures Inv(ReleaseAll(c, p, order), {})
    decreases |order|
  {
    var pending := LinksOf(LinksTo(c, p), order);
    if order == [] {
      assert pending == {};
    } else {
      var i := order[0];
      var c1 := ReleaseFrom(c, p, i, 0);
      ReleaseFromKeeps(c, p, i, 0, pending);
      SameLinks(c, c1, p);
      assert order == [i] + order[1..];
      assert After(pending, i, 0) == LinksOf(LinksTo(c1, p), order[1..]);
      assert SameInstruction(c.entry[p], c1.entry[p]);
      ReleaseAllKeeps(c1, p, order[1..]);
    }
  }

  /** Completion releases every link to p, once. */
  lemma CompleteKeeps(c: Core, p: nat, order: seq<nat>)
    requires Inv(c, {}) && p < c.next && c.entry[p].executed == Inflight && Lists(c, p, order)
    ensures Inv(Complete(c, p, order), {})
  {
    var c1 := MarkCompleted(c, p);
    MarkKeeps(c, p);
    assert LinksOf(LinksTo(c1, p), order) == LinksTo(c, p) by {
      forall x | x in LinksTo(c, p) ensures x in LinksTo(c1, p) && x.0 in order {
        assert DependsOn(c, x.0, p);
      }
    }
    ReleaseAllKeeps(c1, p, order);
  }

  // ----- Retirement -------------------------------------------------------------------------

  function Retire(c: Core): Core {
    c.(head := c.head + 1)
  }

  lemma RetireKeeps(c: Core)
    requires Inv(c, {}) && c.head < |c.entry| && c.entry[c.head].executed == Completed
    ensures Inv(Retire(c), {})
  {
    var c' := Retire(c);
    assert c.head >= c.next ==> FreshOk(c.entry[c.head]);
    forall i | 0 <= i < c'.next ensures ScheduledOk(c', i, {}) {
      ScheduledKept(c, c', i, {});
    }
    DataflowKept(c, c');
  }

  // ----- Whole runs -------------------------------------------------------------------------

  datatype Event =
    | DispatchOne(sources: seq<nat>, dests: seq<nat>, memory: bool)
    | ScheduleOne
    | ExecuteOne(zero: bool)
    | StartMemory(i: nat)
    | CompleteOne(p: nat, order: seq<nat>)
    | RetireOne

  /** The step can happen: what the program checks before it takes it. */
  ghost predicate Enabled(c: Core, e: Event) {
    WellFormed(c) &&
    match e
    case DispatchOne(sources, _, _) => |sources| == SOURCES && |c.entry| < c.head + ROB_SIZE
    case ScheduleOne => c.next < |c.entry|
    case ExecuteOne(zero) =>
      (if zero then c.rte0 else c.rte1) != [] && (if zero then c.rte0 else c.rte1)[0] < |c.entry|
    case StartMemory(i) => i < |c.entry| && c.head <= i < c.next && c.entry[i].memory && c.entry[i].ready &&
      c.entry[i].scheduled == Inflight && c.entry[i].executed == Idle
    case CompleteOne(p, order) => c.head <= p < |c.entry| && c.entry[p].executed == Inflight && Lists(c, p, order)
    case RetireOne => c.head < |c.entry| && c.entry[c.head].executed == Completed
  }

  ghost function Step(c: Core, e: Event): (c': Core)
    requires Enabled(c, e)
  {
    match e
    case DispatchOne(sources, dests, memory) => Dispatch(c, sources, dests, memory)
    case ScheduleOne => Schedule(c)
    case ExecuteOne(zero) => Execute(c, zero)
    case StartMemory(i) => Start(c, i)
    case CompleteOne(p, order) => Complete(c, p, order)
    case RetireOne => Retire(c)
  }

  lemma StepKeeps(c: Core, e: Event, c': Core)
    requires Inv(c, {}) && Enabled(c, e) && c' == Step(c, e)
    ensures Inv(c', {})
  {
    match e
    case DispatchOne(sources, dests, memory) => DispatchKeeps(c, sources, dests, memory);
    case ScheduleOne => ScheduleKeeps(c);
    case ExecuteOne(zero) => ExecuteKeeps(c, zero);
    case StartMemory(i) => MemoryStartKeeps(c, i);
    case CompleteOne(p, order) =>
      assert p >= c.next ==> FreshOk(c.entry[p]);
      CompleteKeeps(c, p, order);
    case RetireOne => RetireKeeps(c);
  }

  /** The cores that a run of enabled events passes through. */
  ghost predicate IsRun(events: seq<Event>, cores: seq<Core>) {
    && |cores| == |events| + 1 && cores[0] == BOOT
    && forall n :: 0 <= n < |events| ==> Enabled(cores[n], events[n]) && cores[n + 1] == Step(cores[n], events[n])
  }

  lemma BootInv(c: Core)
    requires c == BOOT
    ensures Inv(c, {})
  {}

  lemma {:induction false} ReachableInv(events: seq<Event>, cores: seq<Core>, n: nat)
    requires IsRun(events, cores) && n <= |events|
    ensures Inv(cores[n], {})
  {
    if n > 0 {
      ReachableInv(events, cores, n - 1);
      StepKeeps(cores[n - 1], events[n - 1], cores[n]);
    } else {
      BootInv(cores[0]);
    }
  }

  // ----- The main results -------------------------------------------------------------------

  /** Dataflow: when an instruction is executing, or has been executed, the youngest older writer in
      the buffer of each of its sources has completed. */
  lemma DataflowRespected(events: seq<Event>, cores: seq<Core>, n: nat, i: nat, j: nat, p: nat)
    requires IsRun(events, cores) && n <= |events|
    requires var c := cores[n]; WellFormed(c) && i < |c.entry| && j < SOURCES && c.entry[i].executed != Idle
    requires YoungestWriter(cores[n], p, i, j)
    ensures cores[n].entry[p].executed == Completed
  {
    var c := cores[n];
    ReachableInv(events, cores, n);
    assert i >= c.next ==> FreshOk(c.entry[i]);
    assert ScheduledOk(c, i, {});
    assert !Blocked(c, i, j, {});
  }

  /** The wake-up counter is exact: it is the number of sources whose producer has not completed, links
      lead from older to younger instructions, and an instruction is ready exactly when it is zero. */
  lemma WakeUpExact(events: seq<Event>, cores: seq<Core>, n: nat, i: nat)
    requires IsRun(events, cores) && n <= |events| && WellFormed(cores[n]) && i < cores[n].next <= |cores[n].entry|
    ensures var c := cores[n];
      && c.entry[i].waits == BlockedSources(c, i, {})
      && (c.entry[i].ready <==> c.entry[i].waits == 0)
      && (forall j :: 0 <= j < SOURCES && c.entry[i].producers[j].Some? ==> c.entry[i].producers[j].value < i)
  {
    ReachableInv(events, cores, n);
    assert ScheduledOk(cores[n], i, {});
  }

  /** Every scheduled instruction that is not a memory instruction has entered a ready ring exactly once
      if it is ready, and not yet if it is not; nothing else ever enters one. */
  lemma EntersOnce(events: seq<Event>, cores: seq<Core>, n: nat, i: nat)
    requires IsRun(events, cores) && n <= |events|
    ensures cores[n].entered[i] ==
      One(i < |cores[n].entry| && !cores[n].entry[i].memory && cores[n].entry[i].ready)
  {
    ReachableInv(events, cores, n);
  }

  function Members(q: seq<nat>): set<nat> {
    set i | i in q
  }

  lemma {:induction false} DistinctSize(q: seq<nat>)
    requires forall k, l :: 0 <= k < l < |q| ==> q[k] != q[l]
    ensures |Members(q)| == |q|
  {
    if q != [] {
      var rest := q[1..];
      DistinctSize(rest);
      assert q == [q[0]] + rest;
      assert Members(q) == Members(rest) + {q[0]};
      assert q[0] !in Members(rest);
    }
  }

  function Range(low: nat, high: nat): (r: set<nat>)
    requires low <= high
    decreases high - low
  {
    if low == high then {} else {low} + Range(low + 1, high)
  }

  lemma {:induction false} RangeSize(low: nat, high: nat)
    requires low <= high
    ensures |Range(low, high)| == high - low && forall i :: i in Range(low, high) <==> low <= i < high
    decreases high - low
  {
    if low < high {
      RangeSize(low + 1, high);
    }
  }

  /** The rings together hold at most every instruction in the buffer once. */
  lemma RingRoom(c: Core, pending: set<(nat, nat)>)
    requires Inv(c, pending)
    ensures |c.rte0| + |c.rte1| <= ROB_SIZE
  {
    var q := c.rte0 + c.rte1;
    DistinctSize(q);
    RangeSize(c.head, |c.entry|);
    forall i | i in Members(q) ensures i in Range(c.head, |c.entry|) {
      assert if i < c.next then ScheduledOk(c, i, pending) else FreshOk(c.entry[i]);
    }
    SubsetSize(Members(q), Range(c.head, |c.entry|));
  }

  /** Neither ring ever has more to hold than its ROB_SIZE slots, so a push never meets a live one. */
  lemma RingsFit(events: seq<Event>, cores: seq<Core>, n: nat)
    requires IsRun(events, cores) && n <= |events|
    ensures |cores[n].rte0| + |cores[n].rte1| <= ROB_SIZE
  {
    ReachableInv(events, cores, n);
    RingRoom(cores[n], {});
  }

  /** The oldest scheduled instruction that has not completed is never stuck waiting on registers: it is
      ready, and unless it is a memory instruction it is in a ring or has started. */
  lemma OldestIsReady(events: seq<Event>, cores: seq<Core>, n: nat, i: nat)
    requires IsRun(events, cores) && n <= |events| && i < cores[n].next <= |cores[n].entry|
    requires forall k :: 0 <= k < i ==> cores[n].entry[k].executed == Completed
    ensures cores[n].entry[i].ready
    ensures !cores[n].entry[i].memory && cores[n].entry[i].executed == Idle ==> i in cores[n].rte0 + cores[n].rte1
  {
    ReachableInv(events, cores, n);
    var c := cores[n];
    assert ScheduledOk(c, i, {});
    forall j | 0 <= j < SOURCES ensures !Blocked(c, i, j, {}) {}
  }

  // ----- Which ring -------------------------------------------------------------------------

  lemma {:induction false} ReleaseFromRing(c: Core, p: nat, i: nat, j: nat)
    requires WellFormed(c) && i < |c.entry| && j <= SOURCES
    ensures var c' := ReleaseFrom(c, p, i, j);
      c'.rte1 == c.rte1 && |c.rte0| <= |c'.rte0| && c'.rte0[..|c.rte0|] == c.rte0
    decreases SOURCES - j
  {
    if j < SOURCES {
      var next := j + 1;
      ReleaseFromRing(if c.entry[i].producers[j] == Some(p) then ReleaseLink(c, i) else c, p, i, next);
    }
  }

  lemma {:induction false} ReleaseAllRing(c: Core, p: nat, order: seq<nat>)
    requires WellFormed(c) && forall k :: 0 <= k < |order| ==> order[k] < |c.entry|
    ensures var c' := ReleaseAll(c, p, order);
      c'.rte1 == c.rte1 && |c.rte0| <= |c'.rte0| && c'.rte0[..|c.rte0|] == c.rte0
    decreases |order|
  {
    if order != [] {
      var c1 := ReleaseFrom(c, p, order[0], 0);
      ReleaseFromRing(c, p, order[0], 0);
      ReleaseAllRing(c1, p, order[1..]);
      assert ReleaseAll(c1, p, order[1..]).rte0[..|c.rte0|] == c1.rte0[..|c.rte0|];
    }
  }

  /** Ring 1 takes instructions that are ready when they are scheduled, ring 0 those that a completion wakes; each lets
      only its oldest go. */
  lemma RingsSplit(c: Core, e: Event)
    requires Inv(c, {}) && Enabled(c, e)
    ensures var c' := Step(c, e);
      match e
      case ScheduleOne =>
        && c'.rte0 == c.rte0
        && c'.rte1 == if !c'.entry[c.next].memory && c'.entry[c.next].ready then c.rte1 + [c.next] else c.rte1
      case CompleteOne(_, _) => c'.rte1 == c.rte1 && |c.rte0| <= |c'.rte0| && c'.rte0[..|c.rte0|] == c.rte0
      case ExecuteOne(zero) =>
        if zero then c'.rte1 == c.rte1 && c.rte0 == [c.rte0[0]] + c'.rte0
        else c'.rte0 == c.rte0 && c.rte1 == [c.rte1[0]] + c'.rte1
      case _ => c'.rte0 == c.rte0 && c'.rte1 == c.rte1
  {
    if e.CompleteOne? {
      ReleaseAllRing(MarkCompleted(c, e.p), e.p, e.order);
    }
  }

  // ----- Waiting for an older writer --------------------------------------------------------

  /** When an instruction is scheduled, a source with youngest writer y is linked to y if that has not completed, and
      to an older instruction exactly when y has, and an older writer in the buffer has not. */
  lemma LinksToOlder(c: Core, j: nat, y: nat)
    requires WellFormed(c) && c.next < |c.entry| && j < SOURCES && YoungestWriter(c, y, c.next, j)
    ensures var link := Links(c.entry, c.head, c.next)[j];
      && (link == Some(y) <==> c.entry[y].executed != Completed)
      && (link.Some? && link.value < y <==>
            && c.entry[y].executed == Completed
            && exists p ::
              c.head <= p < y && c.entry[p].executed != Completed && Writes(c.entry[p], c.entry[c.next].sources[j]))
  {
    NewLinks(c, c.next, j);
  }

  lemma RunMore(events: seq<Event>, cores: seq<Core>, e: Event, c: Core)
    requires IsRun(events, cores) && Enabled(cores[|events|], e) && c == Step(cores[|events|], e)
    ensures IsRun(events + [e], cores + [c])
  {}

  /** An instruction that writes register 1: a load or not. */
  function Writer(load: bool, scheduled: Status, executed: Status): Entry {
    Entry([0, 0, 0, 0], [1], load, scheduled, executed, scheduled != Idle, 0, NO_LINKS)
  }

  const READER := Entry([1, 0, 0, 0], [0], false, Idle, Idle, false, 0, NO_LINKS)

  /** A load into register 1, another writer of it and a reader enter the buffer. */
  lemma ThreeDispatched() returns (events: seq<Event>, cores: seq<Core>)
    ensures IsRun(events, cores)
    ensures cores[|events|] ==
      Core([Writer(true, Idle, Idle), Writer(false, Idle, Idle), READER], 0, 0, [], [], multiset{})
  {
    var c1 := Dispatch(BOOT, [0, 0, 0, 0], [1], true);
    var c2 := Dispatch(c1, [0, 0, 0, 0], [1], false);
    events := [DispatchOne([0, 0, 0, 0], [1], true), DispatchOne([0, 0, 0, 0], [1], false),
               DispatchOne([1, 0, 0, 0], [0], false)];
    cores := [BOOT, c1, c2, Dispatch(c2, [1, 0, 0, 0], [0], false)];
  }

  lemma NoSources(c: Core)
    requires WellFormed(c) && c.next < |c.entry| && c.entry[c.next].sources == [0, 0, 0, 0]
    ensures Links(c.entry, c.head, c.next) == NO_LINKS
  {}

  /** The writers are scheduled. */
  lemma TwoScheduled() returns (events: seq<Event>, cores: seq<Core>)
    ensures IsRun(events, cores)
    ensures cores[|events|] ==
      Core([Writer(true, Inflight, Idle), Writer(false, Completed, Idle), READER], 0, 2, [], [1], multiset{1})
  {
    events, cores := ThreeDispatched();
    var c := cores[|events|];
    NoSources(c);
    var c1 := Schedule(c);
    assert c1 == Core([Writer(true, Inflight, Idle), Writer(false, Idle, Idle), READER], 0, 1, [], [], multiset{});
    NoSources(c1);
    var c2 := Schedule(c1);
    assert c2 ==
      Core([Writer(true, Inflight, Idle), Writer(false, Completed, Idle), READER], 0, 2, [], [1], multiset{1});
    RunMore(events, cores, ScheduleOne, c1);
    RunMore(events + [ScheduleOne], cores + [c1], ScheduleOne, c2);
    events, cores := events + [ScheduleOne] + [ScheduleOne], cores + [c1] + [c2];
  }

  /** They start, and the younger completes while the load is at the cache. */
  lemma YoungerCompletes() returns (events: seq<Event>, cores: seq<Core>)
    ensures IsRun(events, cores)
    ensures cores[|events|] ==
      Core([Writer(true, Completed, Inflight), Writer(false, Completed, Completed), READER], 0, 2, [], [], multiset{1})
  {
    events, cores := TwoScheduled();
    var c := cores[|events|];
    var e1, e2, e3 := StartMemory(0), ExecuteOne(false), CompleteOne(1, []);
    var c1 := Start(c, 0);
    var c2 := Execute(c1, false);
    assert c2 ==
      Core([Writer(true, Completed, Inflight), Writer(false, Completed, Inflight), READER], 0, 2, [], [], multiset{1});
    var c3 := Complete(c2, 1, []);
    RunMore(events, cores, e1, c1);
    RunMore(events + [e1], cores + [c1], e2, c2);
    RunMore(events + [e1] + [e2], cores + [c1] + [c2], e3, c3);
    events, cores := events + [e1] + [e2] + [e3], cores + [c1] + [c2] + [c3];
  }

  /** A run in which a source waits for an older writer although the youngest has completed: a load into register 1
      misses, a younger instruction writes the register and completes, and then a reader of it is scheduled. */
  lemma WaitsForOlder() returns (events: seq<Event>, cores: seq<Core>)
    ensures IsRun(events, cores)
    ensures var c := cores[|events|];
      && c.head == 0 && c.next == 3 == |c.entry| && WellFormed(c)
      && YoungestWriter(c, 1, 2, 0) && c.entry[1].executed == Completed
      && c.entry[0].memory && c.entry[0].executed == Inflight
      && c.entry[2].producers[0] == Some(0) && !c.entry[2].ready
  {
    events, cores := YoungerCompletes();
    var c := cores[|events|];
    assert c.entry[0] == Writer(true, Completed, Inflight) && Writes(c.entry[0], 1);
    LinksToOlder(c, 0, 1);
    var c' := Schedule(c);
    assert Links(c.entry, c.head, c.next)[0] == Some(0) == c'.entry[2].producers[0];
    assert YoungestWriter(c', 1, 2, 0) && !c'.entry[2].ready;
    RunMore(events, cores, ScheduleOne, c');
    events, cores := events + [ScheduleOne], cores + [c'];
  }
}
