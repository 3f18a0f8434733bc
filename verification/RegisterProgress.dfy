/** Registers alone never make the core stuck: whatever is in the buffer, some step other than dispatch can be taken,
    if memory instructions that are ready can start and complete; and every run without dispatch empties the buffer
    after a number of steps known beforehand.  What memory adds is in module CoreProgress. */
module RegisterProgress {
  import opened Common
  import opened Registers

  // ----- Some step can be taken -------------------------------------------------------------

  /** The dependents of p among the first n instructions, in order. */
  ghost predicate ListsFirst(c: Core, p: nat, n: nat, order: seq<nat>) {
    && (forall k :: 0 <= k < |order| ==> order[k] < n)
    && (forall i: nat :: i < n && DependsOn(c, i, p) ==> i in order)
    && (forall k, l :: 0 <= k < l < |order| ==> order[k] != order[l])
  }

  lemma {:induction false} FirstDependents(c: Core, p: nat, n: nat) returns (order: seq<nat>)
    requires n <= |c.entry|
    ensures ListsFirst(c, p, n, order)
  {
    if n == 0 {
      order := [];
    } else {
      var k := n - 1;
      order := FirstDependents(c, p, k);
      if DependsOn(c, k, p) {
        order := order + [k];
      }
    }
  }

  lemma DependentsAll(c: Core, p: nat) returns (order: seq<nat>)
    ensures Lists(c, p, order)
  {
    order := FirstDependents(c, p, |c.entry|);
  }

  /** The oldest instruction, once scheduled, can start, complete or retire. */
  lemma HeadStep(c: Core) returns (e: Event)
    requires Inv(c, {}) && c.head < c.next
    ensures !e.DispatchOne? && Enabled(c, e)
    ensures (e.StartMemory? ==> e.i == c.head) && (e.CompleteOne? ==> e.p == c.head)
  {
    var h := c.head;
    assert ScheduledOk(c, h, {});
    match c.entry[h].executed
    case Completed => e := RetireOne;
    case Inflight =>
      var order := DependentsAll(c, h);
      e := CompleteOne(h, order);
    case Idle =>
      HeadReady(c);
      if c.entry[h].memory {
        e := StartMemory(h);
      } else {
        e := ExecuteOne(c.rte0 != []);
        RingHead(c, c.rte0 != []);
      }
  }

  lemma HeadReady(c: Core)
    requires Inv(c, {}) && c.head < c.next && c.entry[c.head].executed == Idle
    ensures c.entry[c.head].ready && (!c.entry[c.head].memory ==> c.rte0 != [] || c.rte1 != [])
  {
    var h := c.head;
    assert ScheduledOk(c, h, {});
    forall j | 0 <= j < SOURCES ensures !Blocked(c, h, j, {}) {
      if c.entry[h].producers[j].Some? && c.entry[h].producers[j].value < h {
        assert ScheduledOk(c, c.entry[h].producers[j].value, {});
      }
    }
    if !c.entry[h].memory {
      assert h in c.rte0 + c.rte1;
    }
  }

  /** While the buffer is not empty, some step other than dispatch can be taken; unless it is that the oldest
      instruction accesses memory, and its start or its completion is all that is offered. */
  lemma SomeStep(events: seq<Event>, cores: seq<Core>, n: nat) returns (e: Event)
    requires IsRun(events, cores) && n <= |events| && cores[n].head < |cores[n].entry|
    ensures !e.DispatchOne? && Enabled(cores[n], e)
    ensures e.StartMemory? ==> e.i == cores[n].head
    ensures e.CompleteOne? ==> e.p == cores[n].head
  {
    ReachableInv(events, cores, n);
    var c := cores[n];
    if c.next < |c.entry| {
      e := ScheduleOne;
    } else {
      e := HeadStep(c);
    }
  }

  // ----- Every step is one of finitely many -------------------------------------------------

  /** The steps that an instruction still has before it, besides scheduling and retirement. */
  function Left(e: Entry): nat {
    match e.executed
    case Idle => 2
    case Inflight => 1
    case Completed => 0
  }

  function LeftAll(s: seq<Entry>): nat {
    if s == [] then 0 else LeftAll(s[..|s| - 1]) + Left(s[|s| - 1])
  }

  /** The steps before the buffer is empty: scheduling, start, completion and retirement of each instruction. */
  function Work(c: Core): int {
    (|c.entry| - c.next) + LeftAll(c.entry) + (|c.entry| - c.head)
  }

  lemma {:induction false} LeftUpdate(s: seq<Entry>, i: nat, e: Entry)
    requires i < |s|
    ensures LeftAll(s[i := e]) == LeftAll(s) - Left(s[i]) + Left(e)
  {
    var n := |s| - 1;
    if i < n {
      LeftUpdate(s[..n], i, e);
      assert s[i := e][..n] == s[..n][i := e];
    } else {
      assert s[i := e][..n] == s[..n];
    }
  }

  lemma {:induction false} LeftSame(s: seq<Entry>, s': seq<Entry>)
    requires |s| == |s'| && forall i :: 0 <= i < |s| ==> s'[i].executed == s[i].executed
    ensures LeftAll(s') == LeftAll(s)
  {
    if s != [] {
      LeftSame(s[..|s| - 1], s'[..|s| - 1]);
    }
  }

  lemma {:induction false} NothingLeft(s: seq<Entry>)
    requires forall i :: 0 <= i < |s| ==> s[i].executed == Completed
    ensures LeftAll(s) == 0
  {
    if s != [] {
      NothingLeft(s[..|s| - 1]);
    }
  }

  /** Releasing dependents changes no instruction's execution, and no links. */
  ghost predicate SameExecution(c: Core, c': Core) {
    && |c'.entry| == |c.entry| && c'.head == c.head && c'.next == c.next
    && forall i :: 0 <= i < |c.entry| ==>
         c'.entry[i].executed == c.entry[i].executed && c'.entry[i].memory == c.entry[i].memory
         && c'.entry[i].producers == c.entry[i].producers
  }

  lemma {:induction false} ReleaseFromSame(c: Core, p: nat, i: nat, j: nat)
    requires WellFormed(c) && i < |c.entry| && j <= SOURCES
    ensures SameExecution(c, ReleaseFrom(c, p, i, j))
    decreases SOURCES - j
  {
    if j < SOURCES {
      ReleaseFromSame(if c.entry[i].producers[j] == Some(p) then ReleaseLink(c, i) else c, p, i, j + 1);
    }
  }

  lemma {:induction false} ReleaseAllSame(c: Core, p: nat, order: seq<nat>)
    requires WellFormed(c) && forall k :: 0 <= k < |order| ==> order[k] < |c.entry|
    ensures SameExecution(c, ReleaseAll(c, p, order))
    decreases |order|
  {
    if order != [] {
      ReleaseFromSame(c, p, order[0], 0);
      ReleaseAllSame(ReleaseFrom(c, p, order[0], 0), p, order[1..]);
    }
  }

  lemma CompleteWorks(c: Core, p: nat, order: seq<nat>)
    requires Inv(c, {}) && Enabled(c, CompleteOne(p, order))
    ensures Work(Complete(c, p, order)) == Work(c) - 1
  {
    var c1 := MarkCompleted(c, p);
    LeftUpdate(c.entry, p, c1.entry[p]);
    ReleaseAllSame(c1, p, order);
    LeftSame(c1.entry, Complete(c, p, order).entry);
  }

  /** Every step other than dispatch leaves exactly one step less. */
  lemma StepWorks(c: Core, e: Event)
    requires Inv(c, {}) && Enabled(c, e) && !e.DispatchOne?
    ensures Work(Step(c, e)) == Work(c) - 1
  {
    match e
    case ScheduleOne => LeftSame(c.entry, Step(c, e).entry);
    case ExecuteOne(zero) =>
      RingHead(c, zero);
      var i := (if zero then c.rte0 else c.rte1)[0];
      LeftUpdate(c.entry, i, Start(c, i).entry[i]);
    case StartMemory(i) => LeftUpdate(c.entry, i, Start(c, i).entry[i]);
    case CompleteOne(p, order) => CompleteWorks(c, p, order);
    case RetireOne =>
  }

  /** Nothing is left to do exactly when the buffer is empty. */
  lemma DoneWhenEmpty(c: Core)
    requires Inv(c, {})
    ensures Work(c) == 0 <==> c.head == |c.entry|
  {
    if c.head == |c.entry| {
      forall i | 0 <= i < |c.entry| ensures c.entry[i].executed == Completed {
        assert ScheduledOk(c, i, {});
      }
      NothingLeft(c.entry);
    }
  }

  /** In a run without dispatch from step m on, every step does one piece of the work that was left; so the buffer is
      empty after exactly that many steps, whatever the order, and by SomeStep no run stops before. */
  lemma {:induction false} Drains(events: seq<Event>, cores: seq<Core>, m: nat, n: nat)
    requires IsRun(events, cores) && m <= n <= |events| && forall k :: m <= k < n ==> !events[k].DispatchOne?
    ensures Work(cores[n]) == Work(cores[m]) - (n - m)
    ensures n - m <= Work(cores[m]) && (n - m == Work(cores[m]) <==> cores[n].head == |cores[n].entry|)
    decreases n
  {
    Finished(events, cores, n);
    if m < n {
      var k := n - 1;
      Drains(events, cores, m, k);
      StepAt(events, cores, k, n);
    }
  }

  lemma Finished(events: seq<Event>, cores: seq<Core>, n: nat)
    requires IsRun(events, cores) && n <= |events|
    ensures Work(cores[n]) >= 0 && (Work(cores[n]) == 0 <==> cores[n].head == |cores[n].entry|)
  {
    ReachableInv(events, cores, n);
    DoneWhenEmpty(cores[n]);
  }

  lemma StepAt(events: seq<Event>, cores: seq<Core>, n: nat, n': nat)
    requires IsRun(events, cores) && n < |events| && n' == n + 1 && !events[n].DispatchOne?
    ensures Work(cores[n']) == Work(cores[n]) - 1
  {
    ReachableInv(events, cores, n);
    StepWorks(cores[n], events[n]);
  }
}
