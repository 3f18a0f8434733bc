/** Without arrivals the DRAM channel empties both queues, within an explicit number of cycles. */
module DramDrain {
  import opened Dram
  import opened DramSafety
  import opened DramRuns

  function Max(a: int, b: int): int {
    if a < b then b else a
  }

  /** Requests still in the channel. */
  function Total(c: Channel): int {
    c.rq.occupancy + c.wq.occupancy
  }

  /** The channel after n cycles without arrivals, the first of them at time now. */
  function Cycles(c: Channel, now: nat, n: nat, t: Timing): (c': Channel)
    requires |c.banks| == BANKS
    ensures |c'.banks| == BANKS
    decreases n
  {
    if n == 0 then c else Cycles(Operate(c, now, t).0, now + 1, n - 1, t)
  }

  function FullLatency(t: Timing): nat {
    t.tRP + t.tRCD + t.tCAS
  }

  /** How many mode switches can still happen before both queues are empty. */
  function Phase(c: Channel): nat {
    if c.writeMode then (if c.rq.occupancy == 0 then 1 else 3)
    else if c.wq.occupancy >= WRITE_HIGH_WM then 4 else 2
  }

  /** Every request that waits to be scheduled has been in the queue since time e or before. */
  ghost predicate Due(c: Channel, e: nat) {
    && (forall i :: 0 <= i < |c.rq.entry| && Wanted(c.rq.entry[i], ANY_BANKS, Waiting) ==>
        c.rq.entry[i].eventCycle <= e)
    && (forall i :: 0 <= i < |c.wq.entry| && Wanted(c.wq.entry[i], ANY_BANKS, Waiting) ==>
        c.wq.entry[i].eventCycle <= e)
  }

  /** Requests in service finish at most one full access latency after now. */
  ghost predicate InFlight(c: Channel, now: nat, t: Timing) {
    && (forall i :: 0 <= i < |c.rq.entry| && c.rq.entry[i].scheduled ==>
        c.rq.entry[i].eventCycle <= now + FullLatency(t))
    && (forall i :: 0 <= i < |c.wq.entry| && c.wq.entry[i].scheduled ==>
        c.wq.entry[i].eventCycle <= now + FullLatency(t))
  }

  /** A bound on the cycles until the next transfer, while the mode does not change. */
  function Wait(c: Channel, now: nat, t: Timing): int {
    var q := QueueOf(c, c.writeMode);
    var k := Find(q.entry, ANY_BANKS, InService);
    if k < |q.entry|
    then Max(0, Max(q.entry[k].eventCycle, c.busAvailable) - now) + 1
    else Max(FullLatency(t), c.busAvailable - now) + 2
  }

  /** How far ahead the bus may be reserved, counting the switches still to come. */
  function Ahead(c: Channel, now: nat, t: Timing): int {
    Max(c.busAvailable - now, t.busReturn) + TURN_AROUND * Phase(c)
  }

  // ----- One cycle, part by part ------------------------------------------------------------

  ghost predicate Pace(c: Channel, now: nat, t: Timing, e: nat) {
    Inv(c, t) && InFlight(c, now, t) && Due(c, e)
  }

  ghost predicate Switched(c: Channel, d: Channel) {
    && d.rq.occupancy == c.rq.occupancy && d.wq.occupancy == c.wq.occupancy && d.writeMode == NextMode(c)
    && d.busAvailable == c.busAvailable + (if NextMode(c) != c.writeMode then TURN_AROUND else 0)
    && (NextMode(c) == c.writeMode ==> d == c)
  }

  lemma ResetFacts(c: Channel, write: bool, now: nat, t: Timing, e: nat)
    requires Owned(c, write, t) && Shape(c) && InFlight(c, now, t) && Due(c, e)
    ensures var d := Reset(c, write, now, t);
      && InFlight(d, now, t) && Due(d, Max(e, now))
      && d.rq.occupancy == c.rq.occupancy && d.wq.occupancy == c.wq.occupancy
  {
    ResetKeeps(c, write, now, t);
  }

  lemma SwitchFacts(c: Channel, now: nat, t: Timing, e: nat)
    requires Pace(c, now, t, e)
    ensures Switched(c, SwitchMode(c, now, t)) && Pace(SwitchMode(c, now, t), now, t, Max(e, now))
  {
    SwitchKeeps(c, now, t);
    SwitchBus(c, now, t);
    if NextMode(c) != c.writeMode {
      var flipped := c.(writeMode := !c.writeMode);
      OwnedFrame(c, flipped, c.writeMode, t);
      ResetFacts(flipped, c.writeMode, now, t, e);
    }
  }

  /** Scheduling changes nothing else: packets in service, the bus and the other queue stay. */
  ghost predicate OnlySchedules(c: Channel, d: Channel, write: bool) {
    && d.rq.occupancy == c.rq.occupancy && d.wq.occupancy == c.wq.occupancy
    && d.busAvailable == c.busAvailable && d.writeMode == c.writeMode
    && |QueueOf(d, write).entry| == |QueueOf(c, write).entry|
    && forall i :: 0 <= i < |QueueOf(c, write).entry| && QueueOf(c, write).entry[i].scheduled ==>
         QueueOf(d, write).entry[i] == QueueOf(c, write).entry[i]
  }

  lemma BeginFacts(c: Channel, write: bool, k: nat, hit: bool, now: nat, t: Timing, e: nat)
    requires |c.banks| == BANKS && InFlight(c, now, t) && Due(c, e)
    requires k < |QueueOf(c, write).entry| && !QueueOf(c, write).entry[k].scheduled
    ensures var d := BeginService(c, write, k, hit, now, t);
      OnlySchedules(c, d, write) && InFlight(d, now, t) && Due(d, e)
  {}

  lemma ScheduleFacts(c: Channel, now: nat, t: Timing, e: nat)
    requires Pace(c, now, t, e)
    ensures OnlySchedules(c, TrySchedule(c, now, t), c.writeMode) && Pace(TrySchedule(c, now, t), now, t, e)
  {
    TryScheduleKeeps(c, now, t);
    var q := QueueOf(c, c.writeMode);
    var (i, hit) := Pick(q, c.banks);
    if i < |q.entry| {
      PickSchedulable(q, c.banks);
      BeginFacts(c, c.writeMode, i, hit, now, t, e);
    }
  }

  ghost predicate Processed(c: Channel, d: Channel, moved: bool, now: nat, t: Timing) {
    && d.writeMode == c.writeMode
    && QueueOf(d, c.writeMode).occupancy == QueueOf(c, c.writeMode).occupancy - (if moved then 1 else 0)
    && QueueOf(d, !c.writeMode) == QueueOf(c, !c.writeMode)
    && d.busAvailable == (if moved then now + t.busReturn else c.busAvailable)
    && (moved ==> c.busAvailable <= now)
    && (!moved ==> QueueOf(d, c.writeMode) == QueueOf(c, c.writeMode))
  }

  lemma TransferFacts(c: Channel, write: bool, now: nat, t: Timing, e: nat)
    requires |c.banks| == BANKS && InFlight(c, now, t) && Due(c, e)
    requires QueueOf(c, write).processIndex < |QueueOf(c, write).entry|
    ensures InFlight(Transfer(c, write, now, t), now, t) && Due(Transfer(c, write, now, t), e)
  {}

  lemma ProcessCases(c: Channel, now: nat, t: Timing)
    requires |c.banks| == BANKS
    ensures var d := TryProcess(c, now, t).0;
      if Moves(c, now) then d == Transfer(c, c.writeMode, now, t) else d == c.(banks := d.banks)
  {}

  lemma ProcessFacts(c: Channel, now: nat, t: Timing, e: nat)
    requires Pace(c, now, t, e) && now < UINT64_MAX
    ensures Processed(c, TryProcess(c, now, t).0, Moves(c, now), now, t)
    ensures Pace(TryProcess(c, now, t).0, now, t, e)
  {
    TryProcessKeeps(c, now, t);
    ProcessCases(c, now, t);
    ProcessFrom(c, TryProcess(c, now, t).0, now, t, e);
  }

  lemma ProcessFrom(c: Channel, d: Channel, now: nat, t: Timing, e: nat)
    requires |c.banks| == BANKS && InFlight(c, now, t) && Due(c, e)
    requires if Moves(c, now) then d == Transfer(c, c.writeMode, now, t) else d == c.(banks := d.banks)
    ensures Processed(c, d, Moves(c, now), now, t) && InFlight(d, now, t) && Due(d, e)
  {
    if Moves(c, now) {
      TransferFacts(c, c.writeMode, now, t, e);
    }
  }

  // ----- Progress ---------------------------------------------------------------------------

  lemma SomeWaiting(q: Queue, size: nat)
    requires QueueOk(q, size) && q.occupancy > 0 && Find(q.entry, ANY_BANKS, InService) == |q.entry|
    requires forall i :: 0 <= i < |q.entry| && q.entry[i].scheduled ==> q.entry[i].eventCycle < UINT64_MAX
    ensures Busy(q.entry) == {}
    ensures exists i :: 0 <= i < |q.entry| && Wanted(q.entry[i], ANY_BANKS, Waiting)
  {
    var i :| i in Full(q.entry);
    EarliestIsLeast(q.entry, ANY_BANKS, InService, |q.entry|);
    forall j | 0 <= j < |q.entry| ensures !q.entry[j].scheduled {
      assert !Wanted(q.entry[j], ANY_BANKS, InService);
    }
    assert Wanted(q.entry[i], ANY_BANKS, Waiting);
  }

  lemma MustPick(c: Channel, now: nat, t: Timing)
    requires Pace(c, now, t, now) && now + FullLatency(t) < UINT64_MAX
    requires QueueOf(c, c.writeMode).occupancy > 0
    requires Find(QueueOf(c, c.writeMode).entry, ANY_BANKS, InService) == |QueueOf(c, c.writeMode).entry|
    ensures var q := QueueOf(c, c.writeMode);
      q.scheduleIndex < |q.entry| && q.scheduleCycle <= now && Pick(q, c.banks).0 < |q.entry|
  {
    var q := QueueOf(c, c.writeMode);
    SomeWaiting(q, |q.entry|);
    var i :| 0 <= i < |q.entry| && Wanted(q.entry[i], ANY_BANKS, Waiting);
    AllIdle(c, c.writeMode, t);
    assert Wanted(q.entry[i], c.banks, Eligible);
    EarliestIsLeast(q.entry, c.banks, Eligible, |q.entry|);
    EarliestIsLeast(q.entry, ANY_BANKS, Waiting, |q.entry|);
  }

  lemma BeginInService(c: Channel, write: bool, i: nat, hit: bool, now: nat, t: Timing)
    requires |c.banks| == BANKS && i < |QueueOf(c, write).entry| && now + FullLatency(t) < UINT64_MAX
    ensures var q := QueueOf(BeginService(c, write, i, hit, now, t), write);
      Find(q.entry, ANY_BANKS, InService) < |q.entry|
  {
    var q := QueueOf(BeginService(c, write, i, hit, now, t), write);
    assert Wanted(q.entry[i], ANY_BANKS, InService) && q.entry[i].eventCycle < UINT64_MAX;
    EarliestIsLeast(q.entry, ANY_BANKS, InService, |q.entry|);
  }

  /** With nothing in service and every waiting request due, the scheduler puts one in service. */
  lemma MustSchedule(c: Channel, now: nat, t: Timing)
    requires Pace(c, now, t, now) && now + FullLatency(t) < UINT64_MAX
    requires QueueOf(c, c.writeMode).occupancy > 0
    ensures var q := QueueOf(TrySchedule(c, now, t), c.writeMode);
      Find(q.entry, ANY_BANKS, InService) < |q.entry|
  {
    var q := QueueOf(c, c.writeMode);
    var k := Find(q.entry, ANY_BANKS, InService);
    if k == |q.entry| {
      MustPick(c, now, t);
      var (i, hit) := Pick(q, c.banks);
      BeginInService(c, c.writeMode, i, hit, now, t);
    } else {
      ScheduleFacts(c, now, t, now);
      var q' := QueueOf(TrySchedule(c, now, t), c.writeMode);
      EarliestIsLeast(q.entry, ANY_BANKS, InService, |q.entry|);
      EarliestIsLeast(q'.entry, ANY_BANKS, InService, |q'.entry|);
      assert Wanted(q'.entry[k], ANY_BANKS, InService);
    }
  }

  lemma AllIdle(c: Channel, write: bool, t: Timing)
    requires Owned(c, write, t) && Busy(QueueOf(c, write).entry) == {}
    ensures forall b :: 0 <= b < BANKS ==> !c.banks[b].working
  {
    NoneBusy(QueueOf(c, write).entry);
    forall b | 0 <= b < BANKS ensures !c.banks[b].working {
      assert BankOk(c, write, t, b);
    }
  }

  /** A packet in service moves as soon as both its access time and the bus have been waited for. */
  lemma MustMove(c: Channel, now: nat, t: Timing)
    requires Inv(c, t) && now < UINT64_MAX
    requires var q := QueueOf(c, c.writeMode);
      var k := Find(q.entry, ANY_BANKS, InService);
      k < |q.entry| && q.entry[k].eventCycle <= now && c.busAvailable <= now
    ensures Moves(c, now)
  {
    var q := QueueOf(c, c.writeMode);
    var k := Find(q.entry, ANY_BANKS, InService);
    EarliestIsLeast(q.entry, ANY_BANKS, InService, |q.entry|);
    assert BankOk(c, c.writeMode, t, Bank(q.entry[k].address));
  }

  lemma PhaseFalls(c: Channel, d: Channel)
    requires Total(c) > 0 && c.rq.occupancy >= 0 && c.wq.occupancy >= 0
    requires d.writeMode == NextMode(c)
    requires QueueOf(d, !d.writeMode).occupancy == QueueOf(c, !d.writeMode).occupancy
    requires QueueOf(d, d.writeMode).occupancy <= QueueOf(c, d.writeMode).occupancy
    requires QueueOf(d, d.writeMode).occupancy >= 0
    ensures Phase(d) <= Phase(c)
    ensures NextMode(c) != c.writeMode ==> Phase(d) < Phase(c)
  {}

  /** One cycle of a channel that still holds requests. */
  ghost predicate Advanced(c: Channel, d: Channel, moved: bool, now: nat, t: Timing) {
    && Total(d) == Total(c) - (if moved then 1 else 0)
    && Phase(d) <= Phase(c)
    && (NextMode(c) != c.writeMode ==> Phase(d) < Phase(c))
    && Ahead(d, now + 1, t) <= Ahead(c, now, t)
  }

  lemma Advance(c: Channel, c1: Channel, c2: Channel, d: Channel, moved: bool, now: nat, t: Timing)
    requires Total(c) > 0 && c.rq.occupancy >= 0 && c.wq.occupancy >= 0
    requires d.rq.occupancy >= 0 && d.wq.occupancy >= 0
    requires Switched(c, c1) && OnlySchedules(c1, c2, c1.writeMode) && Processed(c2, d, moved, now, t)
    ensures Advanced(c, d, moved, now, t)
  {
    PhaseFalls(c, d);
  }

  lemma PaceLater(c: Channel, now: nat, now': nat, t: Timing, e: nat, e': nat)
    requires Pace(c, now, t, e) && now <= now' && e <= e'
    ensures Pace(c, now', t, e') && Total(c) >= 0
  {}

  lemma CyclePace(c: Channel, now: nat, t: Timing, e: nat)
    requires Pace(c, now, t, e) && now < UINT64_MAX
    ensures var d := Operate(c, now, t).0;
      && Pace(d, now + 1, t, Max(e, now))
      && Total(d) == Total(c) - (if Transfers(c, now, t) then 1 else 0)
      && (Total(c) > 0 ==> Advanced(c, d, Transfers(c, now, t), now, t))
  {
    var e', next := Max(e, now), now + 1;
    SwitchFacts(c, now, t, e);
    var c1 := SwitchMode(c, now, t);
    ScheduleFacts(c1, now, t, e');
    var c2 := TrySchedule(c1, now, t);
    ProcessFacts(c2, now, t, e');
    var d := TryProcess(c2, now, t).0;
    PaceLater(d, now, next, t, e', e');
    if Total(c) > 0 {
      Advance(c, c1, c2, d, Moves(c2, now), now, t);
    }
  }

  lemma WaitBound(c: Channel, now: nat, t: Timing)
    requires InFlight(c, now, t)
    ensures 0 < Wait(c, now, t) <= Max(FullLatency(t), Ahead(c, now, t)) + 2
  {
    var q := QueueOf(c, c.writeMode);
    EarliestIsLeast(q.entry, ANY_BANKS, InService, |q.entry|);
  }

  /** A packet in service that is not yet due is waited for one cycle less. */
  lemma WaitFrom(c: Channel, c2: Channel, d: Channel, now: nat, t: Timing)
    requires OnlySchedules(c, c2, c.writeMode) && Processed(c2, d, false, now, t)
    requires InFlight(c2, now, t) && now + FullLatency(t) < UINT64_MAX
    requires var q := QueueOf(c2, c.writeMode);
      var k := Find(q.entry, ANY_BANKS, InService);
      k < |q.entry| && (q.entry[k].eventCycle > now || c2.busAvailable > now)
    ensures Wait(d, now + 1, t) < Wait(c, now, t)
  {
    var q := QueueOf(c, c.writeMode);
    var k := Find(q.entry, ANY_BANKS, InService);
    var q' := QueueOf(c2, c.writeMode);
    EarliestIsLeast(q.entry, ANY_BANKS, InService, |q.entry|);
    EarliestIsLeast(q'.entry, ANY_BANKS, InService, |q'.entry|);
    if k < |q.entry| {
      assert Wanted(q'.entry[k], ANY_BANKS, InService);
    }
  }

  /** While nothing moves and the mode stays, the wait shortens every cycle. */
  lemma WaitFalls(c: Channel, now: nat, t: Timing)
    requires Pace(c, now, t, now) && Total(c) > 0 && now + FullLatency(t) < UINT64_MAX
    requires NextMode(c) == c.writeMode && !Transfers(c, now, t)
    ensures Wait(Operate(c, now, t).0, now + 1, t) < Wait(c, now, t)
  {
    ScheduleFacts(c, now, t, now);
    MustSchedule(c, now, t);
    var c2 := TrySchedule(c, now, t);
    ProcessFacts(c2, now, t, now);
    var q := QueueOf(c2, c2.writeMode);
    var k := Find(q.entry, ANY_BANKS, InService);
    if q.entry[k].eventCycle <= now && c2.busAvailable <= now {
      MustMove(c2, now, t);
    }
    WaitFrom(c, c2, TryProcess(c2, now, t).0, now, t);
  }

  // ----- Draining ---------------------------------------------------------------------------

  /** A count that falls at every cycle until the channel is empty, when no single wait between
      two transfers or mode switches is longer than `wait`. */
  function Left(c: Channel, now: nat, t: Timing, wait: nat): int {
    if Total(c) == 0 then 0 else (Phase(c) + Total(c)) * (wait + 1) + Wait(c, now, t)
  }

  lemma MulFalls(a: nat, b: nat, wait: nat)
    requires a < b
    ensures a * (wait + 1) + wait < b * (wait + 1)
  {
    assert b * (wait + 1) == a * (wait + 1) + (b - a) * (wait + 1);
    MulPositive(b - a, wait + 1);
  }

  lemma MulPositive(a: nat, b: nat)
    requires a > 0
    ensures a * b >= b
  {}

  lemma LeftFalls(c: Channel, d: Channel, now: nat, t: Timing, wait: nat, moved: bool)
    requires Total(c) > 0 && Total(d) >= 0 && Advanced(c, d, moved, now, t)
    requires 0 < Wait(d, now + 1, t) <= wait && Wait(c, now, t) > 0
    requires moved || NextMode(c) != c.writeMode || Wait(d, now + 1, t) < Wait(c, now, t)
    ensures Left(d, now + 1, t, wait) < Left(c, now, t, wait)
  {
    var a, b: int := Phase(d) + Total(d), Phase(c) + Total(c);
    if a < b {
      MulFalls(a, b, wait);
    }
    MulPositive(b, wait + 1);
  }

  /** No wait is longer than `wait`, now or later. */
  predicate Patient(c: Channel, now: nat, t: Timing, wait: nat) {
    Total(c) > 0 ==> Max(FullLatency(t), Ahead(c, now, t)) + 2 <= wait
  }

  lemma LeftStep(c: Channel, d: Channel, now: nat, t: Timing, wait: nat, moved: bool)
    requires Total(c) > 0 && Total(d) >= 0 && Advanced(c, d, moved, now, t)
    requires InFlight(c, now, t) && InFlight(d, now + 1, t) && Patient(c, now, t, wait)
    requires moved || NextMode(c) != c.writeMode || Wait(d, now + 1, t) < Wait(c, now, t)
    ensures Left(d, now + 1, t, wait) < Left(c, now, t, wait) && Patient(d, now + 1, t, wait)
  {
    WaitBound(c, now, t);
    WaitBound(d, now + 1, t);
    LeftFalls(c, d, now, t, wait, moved);
  }

  lemma CycleLeft(c: Channel, now: nat, t: Timing, wait: nat)
    requires Pace(c, now, t, now) && now + FullLatency(t) < UINT64_MAX && Patient(c, now, t, wait) && Total(c) > 0
    ensures var d := Operate(c, now, t).0;
      Left(d, now + 1, t, wait) < Left(c, now, t, wait) && Patient(d, now + 1, t, wait)
  {
    var d := Operate(c, now, t).0;
    CyclePace(c, now, t, now);
    PaceLater(d, now + 1, now + 1, t, now, now);
    if !Transfers(c, now, t) && NextMode(c) == c.writeMode {
      WaitFalls(c, now, t);
    }
    LeftStep(c, d, now, t, wait, Transfers(c, now, t));
  }

  // ----- The drain theorem ------------------------------------------------------------------

  /** A bound on every wait from c on. */
  function LongestWait(c: Channel, now: nat, t: Timing): int {
    Max(FullLatency(t), Ahead(c, now, t)) + 2
  }

  /** Cycles that suffice once every waiting request is due. */
  function Steps(budget: int, wait: nat): int {
    budget * (wait + 1) + wait
  }

  /** Cycles that suffice to empty the channel: the time until every waiting request is due, then one
      wait for each request and each mode switch that can still happen, and one more. */
  function DrainTime(c: Channel, now: nat, t: Timing, e: nat): int {
    Max(e, now) - now + Max(0, Steps(Phase(c) + Total(c), LongestWait(c, now, t)))
  }

  /** At time `at` the channel d is on its way to be empty `limit` cycles after `start`, the time from
      which every waiting request is due. */
  ghost predicate OnCourse(d: Channel, at: nat, t: Timing, e: nat, start: nat, budget: int, wait: nat, limit: int) {
    && Pace(d, at, t, Max(e, at))
    && (Total(d) > 0 ==>
         && Patient(d, at, t, wait)
         && Phase(d) + Total(d) <= budget
         && (start <= at ==> Left(d, at, t, wait) <= limit - (at - start)))
  }

  lemma MulOrder(a: int, b: int, k: nat)
    requires a <= b
    ensures a * k <= b * k
  {}

  lemma LeftBound(d: Channel, at: nat, t: Timing, budget: int, wait: nat)
    requires InFlight(d, at, t) && Total(d) > 0 && Patient(d, at, t, wait) && Phase(d) + Total(d) <= budget
    ensures Left(d, at, t, wait) <= Steps(budget, wait)
  {
    WaitBound(d, at, t);
    MulOrder(Phase(d) + Total(d), budget, wait + 1);
  }

  lemma CourseBegin(c: Channel, now: nat, t: Timing, e: nat, wait: nat)
    requires Pace(c, now, t, e) && Patient(c, now, t, wait)
    ensures OnCourse(c, now, t, e, Max(e, now), Phase(c) + Total(c), wait, Steps(Phase(c) + Total(c), wait))
  {
    PaceLater(c, now, now, t, e, Max(e, now));
    if Total(c) > 0 {
      LeftBound(c, now, t, Phase(c) + Total(c), wait);
    }
  }

  lemma CourseAdvance(d: Channel, d': Channel, at: nat, t: Timing, e: nat, start: nat, budget: int, wait: nat,
                      limit: int, moved: bool)
    requires OnCourse(d, at, t, e, start, budget, wait, limit) && limit == Steps(budget, wait)
    requires Pace(d', at + 1, t, Max(e, at + 1)) && Total(d) > 0 && Advanced(d, d', moved, at, t)
    requires start <= at ==> Left(d', at + 1, t, wait) < Left(d, at, t, wait)
    ensures OnCourse(d', at + 1, t, e, start, budget, wait, limit)
  {
    if Total(d') > 0 && at + 1 == start {
      LeftBound(d', at + 1, t, budget, wait);
    }
  }

  lemma CourseStep(d: Channel, at: nat, t: Timing, e: nat, start: nat, budget: int, wait: nat, limit: int)
    requires OnCourse(d, at, t, e, start, budget, wait, limit)
    requires e <= start && limit == Steps(budget, wait) && at + FullLatency(t) < UINT64_MAX
    ensures OnCourse(Operate(d, at, t).0, at + 1, t, e, start, budget, wait, limit)
  {
    var d' := Operate(d, at, t).0;
    CyclePace(d, at, t, Max(e, at));
    PaceLater(d', at + 1, at + 1, t, Max(Max(e, at), at), Max(e, at + 1));
    PaceLater(d, at, at, t, Max(e, at), Max(e, at));
    if Total(d) > 0 {
      if start <= at {
        CycleLeft(d, at, t, wait);
      }
      CourseAdvance(d, d', at, t, e, start, budget, wait, limit, Transfers(d, at, t));
    }
  }

  /** No request is left in the channel. */
  predicate Empty(c: Channel) {
    && (forall i :: 0 <= i < |c.rq.entry| ==> c.rq.entry[i].address == 0)
    && (forall i :: 0 <= i < |c.wq.entry| ==> c.wq.entry[i].address == 0)
  }

  lemma ArrivedEmpty(d: Channel, at: nat, t: Timing, e: nat, start: nat, budget: int, wait: nat, limit: int)
    requires OnCourse(d, at, t, e, start, budget, wait, limit) && at >= start + Max(0, limit)
    ensures Empty(d)
  {
    PaceLater(d, at, at, t, Max(e, at), Max(e, at));
    if Total(d) > 0 {
      WaitBound(d, at, t);
      MulPositive(Phase(d) + Total(d), wait + 1);
    }
    NoneFull(d.rq.entry);
    NoneFull(d.wq.entry);
  }

  /** What every cycle keeps up to time `until` holds at that time. */
  lemma {:induction false} CyclesKeep(P: (Channel, nat) -> bool, d: Channel, at: nat, t: Timing, until: nat)
    requires |d.banks| == BANKS && P(d, at) && at <= until
    requires forall c: Channel, k: nat {:trigger Operate(c, k, t)} :: |c.banks| == BANKS && P(c, k) && k < until ==>
               P(Operate(c, k, t).0, k + 1)
    ensures P(Cycles(d, at, until - at, t), until)
    decreases until - at
  {
    if at < until {
      CyclesKeep(P, Operate(d, at, t).0, at + 1, t, until);
    }
  }

  ghost function Course(t: Timing, e: nat, start: nat, budget: int, wait: nat, limit: int): (Channel, nat) -> bool {
    (c: Channel, k: nat) => OnCourse(c, k, t, e, start, budget, wait, limit)
  }

  lemma CourseNext(P: (Channel, nat) -> bool, c: Channel, k: nat, t: Timing, e: nat, start: nat, budget: int,
                   wait: nat, limit: int)
    requires e <= start && limit == Steps(budget, wait) && P == Course(t, e, start, budget, wait, limit) && P(c, k)
    requires k + FullLatency(t) < UINT64_MAX
    ensures |c.banks| == BANKS && P(Operate(c, k, t).0, k + 1)
  {
    CourseStep(c, k, t, e, start, budget, wait, limit);
  }

  lemma CourseEnds(d: Channel, at: nat, t: Timing, e: nat, start: nat, budget: int, wait: nat, limit: int, until: nat)
    requires OnCourse(d, at, t, e, start, budget, wait, limit) && e <= start && limit == Steps(budget, wait)
    requires at <= until && until + FullLatency(t) < UINT64_MAX && until >= start + Max(0, limit)
    ensures Empty(Cycles(d, at, until - at, t))
  {
    var P := Course(t, e, start, budget, wait, limit);
    forall c: Channel, k: nat {:trigger Operate(c, k, t)} | |c.banks| == BANKS && P(c, k) && k < until
      ensures P(Operate(c, k, t).0, k + 1)
    {
      CourseNext(P, c, k, t, e, start, budget, wait, limit);
    }
    CyclesKeep(P, d, at, t, until);
    ArrivedEmpty(Cycles(d, at, until - at, t), until, t, e, start, budget, wait, limit);
  }

  lemma DrainsBy(c: Channel, now: nat, t: Timing, e: nat, wait: nat, until: nat)
    requires Pace(c, now, t, e) && Patient(c, now, t, wait) && until + FullLatency(t) < UINT64_MAX
    requires until >= Max(e, now) + Max(0, Steps(Phase(c) + Total(c), wait))
    ensures Empty(Cycles(c, now, until - now, t))
  {
    var budget := Phase(c) + Total(c);
    CourseBegin(c, now, t, e, wait);
    CourseEnds(c, now, t, e, Max(e, now), budget, wait, Steps(budget, wait), until);
  }

  /** Without arrivals, and with a clock that advances, the channel empties both queues. */
  lemma Drains(c: Channel, now: nat, t: Timing, e: nat)
    requires Pace(c, now, t, e) && now + Max(0, DrainTime(c, now, t, e)) + FullLatency(t) < UINT64_MAX
    ensures DrainTime(c, now, t, e) >= 0 && Empty(Cycles(c, now, DrainTime(c, now, t, e), t))
  {
    PaceLater(c, now, now, t, e, e);
    DrainsBy(c, now, t, e, LongestWait(c, now, t), now + DrainTime(c, now, t, e));
  }

  lemma NoneFull(e: seq<Packet>)
    requires |Full(e)| == 0
    ensures forall i :: 0 <= i < |e| ==> e[i].address == 0
  {
    forall i | 0 <= i < |e| ensures e[i].address == 0 {
      assert i !in Full(e);
    }
  }

  // ----- Every reachable channel drains -----------------------------------------------------

  /** Arrivals are unscheduled and became due no later than time e. */
  predicate ArrivesBy(event: Event, e: nat) {
    FreshEvent(event) && (event.Cycle? || event.p.eventCycle <= e)
  }

  lemma InsertPace(c: Channel, write: bool, p: Packet, now: nat, t: Timing, e: nat)
    requires |c.banks| == BANKS && InFlight(c, now, t) && Due(c, e) && !p.scheduled && p.eventCycle <= e
    ensures InFlight(Insert(c, write, p), now, t) && Due(Insert(c, write, p), e)
  {}

  lemma AddPace(c: Channel, p: Packet, warm: bool, now: nat, t: Timing, e: nat)
    requires Pace(c, now, t, e) && !p.scheduled && p.eventCycle <= e
    ensures Pace(AddRead(c, p, warm).channel, now, t, e) && Pace(AddWrite(c, p, warm).channel, now, t, e)
  {
    AddKeeps(c, p, warm, t);
    InsertPace(c, false, p, now, t, e);
    InsertPace(c, true, p, now, t, e);
  }

  lemma {:induction false} ReachablePace(events: seq<Event>, t: Timing, e: nat)
    requires |events| < UINT64_MAX && forall i :: 0 <= i < |events| ==> ArrivesBy(events[i], e)
    ensures var w := Run(events, t); Pace(w.channel, w.now, t, Max(e, w.now))
  {
    if events == [] {
      StartInv(t);
    } else {
      var before := events[..|events| - 1];
      ReachablePace(before, t, e);
      RunNow(before, t);
      StepPace(Run(before, t), events[|events| - 1], t, e);
    }
  }

  lemma StepPace(w: World, event: Event, t: Timing, e: nat)
    requires Pace(w.channel, w.now, t, Max(e, w.now)) && w.now < UINT64_MAX && ArrivesBy(event, e)
    ensures var w' := Step(w, event, t); Pace(w'.channel, w'.now, t, Max(e, w'.now))
  {
    match event
    case Read(p, warm) => AddPace(w.channel, p, warm, w.now, t, Max(e, w.now));
    case Write(p, warm) => AddPace(w.channel, p, warm, w.now, t, Max(e, w.now));
    case Cycle => CycleReach(w.channel, w.now, t, e);
  }

  lemma CycleReach(c: Channel, now: nat, t: Timing, e: nat)
    requires Pace(c, now, t, Max(e, now)) && now < UINT64_MAX
    ensures Pace(Operate(c, now, t).0, now + 1, t, Max(e, now + 1))
  {
    CyclePace(c, now, t, Max(e, now));
    PaceLater(Operate(c, now, t).0, now + 1, now + 1, t, Max(Max(e, now), now), Max(e, now + 1));
  }

  /** From whatever state a run has reached, the channel empties both queues once arrivals stop. */
  lemma ReachableDrains(events: seq<Event>, t: Timing, e: nat)
    requires |events| < UINT64_MAX && forall i :: 0 <= i < |events| ==> ArrivesBy(events[i], e)
    requires var w := Run(events, t);
      w.now + Max(0, DrainTime(w.channel, w.now, t, Max(e, w.now))) + FullLatency(t) < UINT64_MAX
    ensures var w := Run(events, t);
      var n := DrainTime(w.channel, w.now, t, Max(e, w.now));
      n >= 0 && Empty(Cycles(w.channel, w.now, n, t))
  {
    ReachablePace(events, t, e);
    var w := Run(events, t);
    Drains(w.channel, w.now, t, Max(e, w.now));
  }
}
