/** Memory operations never wait for each other in a circle: whatever is in the buffer, some step other than
    dispatch can be taken, and every run without dispatch ends, with an empty buffer unless it is cut short.
    What changes when the queues are full is in module CoreProgress. */
module MemoryProgress {
  import opened Common
  import opened LoadStore

  // ----- Some step can be taken -------------------------------------------------------------

  /** The first load of an entry, from j on, that is not released; LOADS if there is none. */
  function NextLoad(e: Entry, j: nat): (k: nat)
    requires |e.loads| == LOADS == |e.state| && j <= LOADS
    ensures j <= k <= LOADS && (k < LOADS ==> e.loads[k] != 0 && !e.state[k].Released?)
    ensures forall l :: j <= l < k ==> e.loads[l] == 0 || e.state[l].Released?
    decreases LOADS - j, e
  {
    if j == LOADS || (e.loads[j] != 0 && !e.state[j].Released?) then j else NextLoad(e, j + 1)
  }

  /** The oldest instruction waits for no store, so its operations, completion or retirement can go on. */
  lemma HeadStep(c: Core) returns (e: Event)
    requires Inv(c) && c.head < |c.entry|
    ensures !e.DispatchOne? && Enabled(c, e)
    ensures e.LoadEnters? || e.StoreEnters? || e.CompleteOne? ==> e.i == c.head
  {
    var h := c.head;
    var m := c.entry[h];
    assert EntryOk(c, h);
    var j := NextLoad(m, 0);
    if j < LOADS {
      assert LoadOk(c, h, j) && Youngest(c.entry, c.head, h, m.loads[j]) == None;
      e := if m.state[j] == Outside then LoadEnters(h, j) else CacheAnswers(h, j);
    } else if m.store != 0 && !m.done {
      e := if m.inQueue then StoreExecutes(h) else StoreEnters(h);
    } else if m.completed {
      e := RetireOne;
    } else {
      assert forall l :: 0 <= l < LOADS ==> !Unfinished(m, l);
      e := CompleteOne(h);
    }
  }

  /** While the buffer is not empty, some step other than dispatch can be taken. */
  lemma SomeStep(events: seq<Event>, cores: seq<Core>, n: nat) returns (e: Event)
    requires IsRun(events, cores) && n <= |events| && cores[n].head < |cores[n].entry|
    ensures !e.DispatchOne? && Enabled(cores[n], e)
  {
    ReachableInv(events, cores, n);
    e := HeadStep(cores[n]);
  }

  // ----- Every step is one of finitely many -------------------------------------------------

  function LoadLeft(e: Entry, j: nat): nat
    requires j < |e.loads| && j < |e.state|
  {
    if e.loads[j] == 0 || e.state[j].Released? then 0 else if e.state[j] == Outside then 2 else 1
  }

  /** The steps that an instruction still has before it, besides retirement. */
  function Left(e: Entry): nat
    requires |e.loads| == LOADS == |e.state|
  {
    LoadLeft(e, 0) + LoadLeft(e, 1) + LoadLeft(e, 2) + LoadLeft(e, 3) + One(!e.completed)
    + if e.store == 0 || e.done then 0 else if e.inQueue then 1 else 2
  }

  ghost predicate Formed(s: seq<Entry>) {
    forall i :: 0 <= i < |s| ==> |s[i].loads| == LOADS == |s[i].state|
  }

  ghost function LeftAll(s: seq<Entry>): nat
    requires Formed(s)
  {
    if s == [] then 0 else LeftAll(s[..|s| - 1]) + Left(s[|s| - 1])
  }

  /** A bound on the steps before the buffer is empty. */
  ghost function Work(c: Core): int
    requires WellFormed(c)
  {
    LeftAll(c.entry) + (|c.entry| - c.head)
  }

  /** If no entry has more left and one has less, less is left in all. */
  lemma {:induction false} LeftLess(s: seq<Entry>, s': seq<Entry>, p: nat)
    requires Formed(s) && Formed(s') && |s| == |s'|
    requires forall i :: 0 <= i < |s| ==> Left(s'[i]) <= Left(s[i])
    ensures LeftAll(s') <= LeftAll(s)
    ensures p < |s| && Left(s'[p]) < Left(s[p]) ==> LeftAll(s') < LeftAll(s)
  {
    if s != [] {
      LeftLess(s[..|s| - 1], s'[..|s| - 1], p);
    }
  }

  lemma {:induction false} NothingLeft(s: seq<Entry>)
    requires Formed(s) && forall i :: 0 <= i < |s| ==> Left(s[i]) == 0
    ensures LeftAll(s) == 0
  {
    if s != [] {
      NothingLeft(s[..|s| - 1]);
    }
  }

  /** The instruction whose step it is. */
  function Actor(e: Event): nat
    requires !e.DispatchOne? && !e.RetireOne?
  {
    match e
    case LoadEnters(i, _) => i
    case StoreEnters(i) => i
    case StoreExecutes(p) => p
    case CacheAnswers(i, _) => i
    case CompleteOne(i) => i
  }

  lemma ForwardLess(e: Entry, address: nat, p: nat)
    requires |e.loads| == LOADS == |e.state|
    ensures Left(Forward(e, address, p)) <= Left(e)
  {
    var e' := Forward(e, address, p);
    forall j | 0 <= j < LOADS ensures LoadLeft(e', j) <= LoadLeft(e, j) {}
  }

  /** A load that gets nearer to its release. */
  lemma LoadLess(e: Entry, e': Entry, j: nat)
    requires |e.loads| == LOADS == |e.state| && j < LOADS && e'.loads == e.loads && |e'.state| == LOADS
    requires e'.store == e.store && e'.inQueue == e.inQueue && e'.done == e.done && e'.completed == e.completed
    requires forall l :: 0 <= l < LOADS && l != j ==> e'.state[l] == e.state[l]
    requires LoadLeft(e', j) < LoadLeft(e, j)
    ensures Left(e') < Left(e)
  {
    assert forall l :: 0 <= l < LOADS && l != j ==> LoadLeft(e', l) == LoadLeft(e, l);
  }

  lemma LoadStepLess(c: Core, e: Event, k: nat)
    requires Inv(c) && Enabled(c, e) && (e.LoadEnters? || e.CacheAnswers?) && k < |c.entry|
    ensures WellFormed(Step(c, e)) && |Step(c, e).entry| == |c.entry|
    ensures if k == e.i then Left(Step(c, e).entry[k]) < Left(c.entry[k])
      else Left(Step(c, e).entry[k]) == Left(c.entry[k])
  {
    assert LoadOk(c, e.i, e.j);
    if e.LoadEnters? {
      AddLoadShape(c, e.i, e.j, k);
    }
    if k == e.i {
      LoadLess(c.entry[k], Step(c, e).entry[k], e.j);
    }
  }

  lemma ExecuteLess(c: Core, p: nat, k: nat)
    requires WellFormed(c) && p < |c.entry| && k < |c.entry| && c.entry[p].store != 0 && c.entry[p].inQueue
    requires !c.entry[p].done
    ensures Left(ExecuteStore(c, p).entry[k]) <= Left(c.entry[k])
    ensures k == p ==> Left(ExecuteStore(c, p).entry[k]) < Left(c.entry[k])
  {
    ForwardLess(c.entry[k], c.entry[p].store, p);
  }

  lemma StoreStepLess(c: Core, e: Event, k: nat)
    requires Inv(c) && Enabled(c, e) && (e.StoreEnters? || e.StoreExecutes? || e.CompleteOne?) && k < |c.entry|
    ensures WellFormed(Step(c, e)) && |Step(c, e).entry| == |c.entry|
    ensures Left(Step(c, e).entry[k]) <= Left(c.entry[k])
    ensures k == Actor(e) ==> Left(Step(c, e).entry[k]) < Left(c.entry[k])
  {
    if e.StoreExecutes? {
      ExecuteLess(c, e.p, k);
    } else {
      assert EntryOk(c, k);
    }
  }

  lemma EntryLess(c: Core, e: Event, k: nat)
    requires Inv(c) && Enabled(c, e) && !e.DispatchOne? && !e.RetireOne? && k < |c.entry|
    ensures WellFormed(Step(c, e)) && |Step(c, e).entry| == |c.entry|
    ensures Left(Step(c, e).entry[k]) <= Left(c.entry[k])
    ensures k == Actor(e) ==> Left(Step(c, e).entry[k]) < Left(c.entry[k])
  {
    if e.LoadEnters? || e.CacheAnswers? {
      LoadStepLess(c, e, k);
    } else {
      StoreStepLess(c, e, k);
    }
  }

  /** Nothing is left to do exactly when the buffer is empty. */
  lemma DoneWhenEmpty(c: Core)
    requires Inv(c)
    ensures Work(c) == 0 <==> c.head == |c.entry|
  {
    if c.head == |c.entry| {
      forall i | 0 <= i < |c.entry| ensures Left(c.entry[i]) == 0 {
        assert EntryOk(c, i);
        assert forall j :: 0 <= j < LOADS ==> !Unfinished(c.entry[i], j);
      }
      NothingLeft(c.entry);
    }
  }

  /** Every step other than dispatch leaves less to do. */
  lemma StepWorks(c: Core, e: Event)
    requires Inv(c) && Enabled(c, e) && !e.DispatchOne?
    ensures WellFormed(Step(c, e)) && Work(Step(c, e)) < Work(c)
  {
    if !e.RetireOne? {
      forall k | 0 <= k < |c.entry|
        ensures WellFormed(Step(c, e)) && |Step(c, e).entry| == |c.entry|
        ensures Left(Step(c, e).entry[k]) <= Left(c.entry[k])
      {
        EntryLess(c, e, k);
      }
      EntryLess(c, e, Actor(e));
      LeftLess(c.entry, Step(c, e).entry, Actor(e));
    }
  }

  /** In a run without dispatch from step m on, every step leaves less of the work; so it has at most that many steps,
      nothing is left exactly when the buffer is empty, and by SomeStep the run can go on until then. */
  lemma {:induction false} Drains(events: seq<Event>, cores: seq<Core>, m: nat, n: nat)
    requires IsRun(events, cores) && m <= n <= |events| && forall k :: m <= k < n ==> !events[k].DispatchOne?
    ensures WellFormed(cores[m]) && WellFormed(cores[n]) && 0 <= Work(cores[n]) <= Work(cores[m]) - (n - m)
    ensures Work(cores[n]) == 0 <==> cores[n].head == |cores[n].entry|
    decreases n
  {
    Ready(events, cores, n);
    if m < n {
      var k := n - 1;
      Drains(events, cores, m, k);
      StepAt(events, cores, k, n);
      assert Work(cores[n]) < Work(cores[k]) <= Work(cores[m]) - (k - m);
    }
  }

  lemma StepAt(events: seq<Event>, cores: seq<Core>, n: nat, n': nat)
    requires IsRun(events, cores) && n < |events| && n' == n + 1 && !events[n].DispatchOne?
    ensures WellFormed(cores[n]) && WellFormed(cores[n']) && Work(cores[n']) < Work(cores[n])
  {
    ReachableInv(events, cores, n);
    StepWorks(cores[n], events[n]);
  }

  lemma Ready(events: seq<Event>, cores: seq<Core>, n: nat)
    requires IsRun(events, cores) && n <= |events|
    ensures WellFormed(cores[n]) && Work(cores[n]) >= 0 && (Work(cores[n]) == 0 <==> cores[n].head == |cores[n].entry|)
  {
    ReachableInv(events, cores, n);
    DoneWhenEmpty(cores[n]);
  }
}
