/** Whole runs of the DRAM channel: arrivals and cycles in any order. */
module DramRuns {
  import opened Dram
  import opened DramSafety

  datatype Event = Read(p: Packet, warm: bool) | Write(p: Packet, warm: bool) | Cycle

  /** One use of the data bus, and how many mode switches happened since the one before it. */
  datatype Move = Move(at: nat, switches: nat)

  /** The channel, its clock, and what an observer outside has seen: the reads it took in, the reads
      it handed back over the bus, and the bus transfers. */
  datatype World = World(channel: Channel, now: nat, accepted: multiset<nat>, returned: multiset<nat>,
                         moves: seq<Move>, switches: nat)

  const GENESIS := World(Start(), 0, multiset{}, multiset{}, [], 0)

  /** The channel, its mode and schedule settled, moves a packet over the bus at this cycle. */
  predicate Moves(c: Channel, now: nat)
    requires |c.banks| == BANKS
  {
    var q := QueueOf(c, c.writeMode);
    && q.processIndex < |q.entry| && q.processCycle <= now
    && c.banks[Bank(q.entry[q.processIndex].address)].cycleAvailable <= now && c.busAvailable <= now
  }

  /** The cycle that starts at c moves a packet over the bus. */
  predicate Transfers(c: Channel, now: nat, t: Timing)
    requires |c.banks| == BANKS
  {
    Moves(TrySchedule(SwitchMode(c, now, t), now, t), now)
  }

  function Addresses(ps: seq<Packet>): seq<nat> {
    seq(|ps|, i requires 0 <= i < |ps| => ps[i].address)
  }

  /** The reads waiting in the channel. */
  function Pending(c: Channel): multiset<nat> {
    multiset(Addresses(c.rq.entry))[0 := 0]
  }

  /** The read is new to both queues and there is a slot for it. */
  predicate Queued(c: Channel, p: Packet, warm: bool) {
    && warm
    && Lookup(c.wq.entry, p.address, 0) == |c.wq.entry|
    && Lookup(c.rq.entry, p.address, 0) == |c.rq.entry|
    && Lookup(c.rq.entry, 0, 0) < |c.rq.entry|
  }

  function Step(w: World, e: Event, t: Timing): (w': World)
    requires |w.channel.banks| == BANKS
    ensures |w'.channel.banks| == BANKS
  {
    match e
    case Read(p, warm) =>
      w.(channel := AddRead(w.channel, p, warm).channel,
         accepted := if Queued(w.channel, p, warm) then w.accepted + multiset{p.address} else w.accepted)
    case Write(p, warm) => w.(channel := AddWrite(w.channel, p, warm).channel)
    case Cycle =>
      var (c', returned) := Operate(w.channel, w.now, t);
      var switches := w.switches + if NextMode(w.channel) != w.channel.writeMode then 1 else 0;
      var moved := Transfers(w.channel, w.now, t);
      w.(channel := c', now := w.now + 1,
         returned := w.returned + multiset(Addresses(returned)),
         moves := if moved then w.moves + [Move(w.now, switches)] else w.moves,
         switches := if moved then 0 else switches)
  }

  function Run(events: seq<Event>, t: Timing): (w: World)
    ensures |w.channel.banks| == BANKS
  {
    if events == [] then GENESIS else Step(Run(events[..|events| - 1], t), events[|events| - 1], t)
  }

  /** Packets arrive unscheduled. */
  predicate FreshEvent(e: Event) {
    e.Cycle? || !e.p.scheduled
  }

  // ----- The invariant holds in every reachable state ---------------------------------------

  lemma {:induction false} RunNow(events: seq<Event>, t: Timing)
    ensures Run(events, t).now <= |events|
  {
    if events != [] {
      RunNow(events[..|events| - 1], t);
    }
  }

  lemma {:induction false} ReachableInv(events: seq<Event>, t: Timing)
    requires |events| < UINT64_MAX && forall i :: 0 <= i < |events| ==> FreshEvent(events[i])
    ensures Inv(Run(events, t).channel, t)
  {
    StartInv(t);
    if events != [] {
      var before := events[..|events| - 1];
      ReachableInv(before, t);
      RunNow(before, t);
      var w := Run(before, t);
      match events[|events| - 1]
      case Read(p, warm) => AddKeeps(w.channel, p, warm, t);
      case Write(p, warm) => AddKeeps(w.channel, p, warm, t);
      case Cycle => OperateKeeps(w.channel, w.now, t);
    }
  }

  /** A scheduled entry of the active queue owns its bank, a working bank is owned by exactly the
      entry it names, the other queue has nothing scheduled, and the counters count the scheduled
      entries. */
  ghost predicate Correspondence(c: Channel) {
    var active := QueueOf(c, c.writeMode).entry;
    var idle := QueueOf(c, !c.writeMode).entry;
    && |c.banks| == BANKS
    && (forall b, i :: 0 <= b < BANKS && 0 <= i < |active| ==>
         ((c.banks[b].working && c.banks[b].requestIndex == i)
           <==> (active[i].scheduled && Bank(active[i].address) == b)))
    && (forall b :: 0 <= b < BANKS && c.banks[b].working ==> 0 <= c.banks[b].requestIndex < |active|)
    && (forall i :: 0 <= i < |idle| ==> !idle[i].scheduled)
    && c.scheduledReads == |Busy(c.rq.entry)| && c.scheduledWrites == |Busy(c.wq.entry)|
  }

  lemma OneToOne(events: seq<Event>, t: Timing)
    requires |events| < UINT64_MAX && forall i :: 0 <= i < |events| ==> FreshEvent(events[i])
    ensures Correspondence(Run(events, t).channel)
  {
    ReachableInv(events, t);
    InvCorrespondence(Run(events, t).channel, t);
  }

  lemma InvCorrespondence(c: Channel, t: Timing)
    requires Inv(c, t)
    ensures Correspondence(c)
  {
    NoneBusy(QueueOf(c, !c.writeMode).entry);
    var active := QueueOf(c, c.writeMode).entry;
    forall b | 0 <= b < BANKS
      ensures c.banks[b].working ==> 0 <= c.banks[b].requestIndex < |active|
      ensures forall i :: 0 <= i < |active| ==>
        ((c.banks[b].working && c.banks[b].requestIndex == i)
          <==> (active[i].scheduled && Bank(active[i].address) == b))
    {
      assert BankOk(c, c.writeMode, t, b);
    }
  }

  /** The checks of `process`, of the queue removal it makes and of `reset_remain_requests` pass in a
      cycle that starts at c. */
  ghost predicate ChecksPass(c: Channel, now: nat, t: Timing)
    requires |c.banks| == BANKS
  {
    var reset := Reset(c.(writeMode := !c.writeMode), c.writeMode, now, t);
    var d := TrySchedule(SwitchMode(c, now, t), now, t);
    var q := QueueOf(d, d.writeMode);
    && reset.scheduledReads == 0 && reset.scheduledWrites == 0
    && (q.processIndex < |q.entry| && q.processCycle <= now ==>
         d.banks[Bank(q.entry[q.processIndex].address)].requestIndex == q.processIndex && q.occupancy > 0)
  }

  lemma ChecksHold(events: seq<Event>, t: Timing)
    requires |events| < UINT64_MAX && forall i :: 0 <= i < |events| ==> FreshEvent(events[i])
    ensures ChecksPass(Run(events, t).channel, Run(events, t).now, t)
  {
    ReachableInv(events, t);
    RunNow(events, t);
    InvChecks(Run(events, t).channel, Run(events, t).now, t);
  }

  lemma InvChecks(c: Channel, now: nat, t: Timing)
    requires Inv(c, t) && now < UINT64_MAX
    ensures ChecksPass(c, now, t)
  {
    var flipped := c.(writeMode := !c.writeMode);
    OwnedFrame(c, flipped, c.writeMode, t);
    ResetKeeps(flipped, c.writeMode, now, t);
    SwitchKeeps(c, now, t);
    TryScheduleKeeps(SwitchMode(c, now, t), now, t);
    var d := TrySchedule(SwitchMode(c, now, t), now, t);
    if QueueOf(d, d.writeMode).processIndex < |QueueOf(d, d.writeMode).entry| &&
      QueueOf(d, d.writeMode).processCycle <= now {
      DueOwned(d, now, t);
    }
  }

  /** A due packet is the one its bank is working for. */
  lemma DueOwned(d: Channel, now: nat, t: Timing)
    requires Inv(d, t) && now < UINT64_MAX && QueueOf(d, d.writeMode).processCycle <= now
    ensures var q := QueueOf(d, d.writeMode);
      && HasInService(d, d.writeMode)
      && d.banks[Bank(q.entry[q.processIndex].address)].requestIndex == q.processIndex && q.occupancy > 0
  {
    DueInService(d, d.writeMode, now);
    var q := QueueOf(d, d.writeMode);
    assert q.processIndex in Full(q.entry);
  }

  // ----- Reads are answered exactly once ----------------------------------------------------

  /** The contribution of one slot to the waiting reads. */
  function Slot(p: Packet): multiset<nat> {
    if p.address == 0 then multiset{} else multiset{p.address}
  }

  lemma PendingUpdate(c: Channel, c': Channel, i: nat, p: Packet)
    requires i < |c.rq.entry| && c'.rq.entry == c.rq.entry[i := p]
    ensures Pending(c') + Slot(c.rq.entry[i]) == Pending(c) + Slot(p)
  {
    var a := Addresses(c.rq.entry);
    assert Addresses(c'.rq.entry) == a[i := p.address];
    assert multiset(a[i := p.address]) == multiset(a) - multiset{a[i]} + multiset{p.address};
    assert a[i] in multiset(a);
  }

  lemma SwitchPending(c: Channel, now: nat, t: Timing)
    requires Inv(c, t)
    ensures Pending(SwitchMode(c, now, t)) == Pending(c)
  {
    if NextMode(c) != c.writeMode {
      var flipped := c.(writeMode := !c.writeMode);
      OwnedFrame(c, flipped, c.writeMode, t);
      ResetKeeps(flipped, c.writeMode, now, t);
      assert Addresses(SwitchMode(c, now, t).rq.entry) == Addresses(c.rq.entry);
    }
  }

  lemma SchedulePending(c: Channel, now: nat, t: Timing)
    requires Inv(c, t)
    ensures Pending(TrySchedule(c, now, t)) == Pending(c)
  {
    assert Addresses(TrySchedule(c, now, t).rq.entry) == Addresses(c.rq.entry);
  }

  lemma ProcessPending(c: Channel, now: nat, t: Timing)
    requires Inv(c, t) && now < UINT64_MAX
    ensures var (c', returned) := TryProcess(c, now, t);
      Pending(c) == Pending(c') + multiset(Addresses(returned))
  {
    var (c', returned) := TryProcess(c, now, t);
    var q := QueueOf(c, c.writeMode);
    if c'.rq.entry == c.rq.entry {
      assert Addresses(c'.rq.entry) == Addresses(c.rq.entry);
      if returned != [] { DueOwned(c, now, t); }
    } else {
      DueOwned(c, now, t);
      var p := q.entry[q.processIndex];
      assert p.address != 0 && Addresses(returned) == [p.address];
      PendingUpdate(c, c', q.processIndex, EMPTY_PACKET);
    }
  }

  /** Over any run, the reads taken into the queue are exactly the reads returned over the bus and
      the reads still waiting, each as often as it was taken in. */
  lemma {:induction false} ReadsConserved(events: seq<Event>, t: Timing)
    requires |events| < UINT64_MAX && forall i :: 0 <= i < |events| ==> FreshEvent(events[i])
    ensures var w := Run(events, t);
      w.accepted == w.returned + Pending(w.channel)
  {
    if events == [] {
      var s := Addresses(Start().rq.entry);
      forall a: nat ensures a in multiset(s) ==> a == 0 {
        if a in multiset(s) { assert a in s; }
      }
      assert multiset(s)[0 := 0] == multiset{};
    } else {
      var before := events[..|events| - 1];
      ReadsConserved(before, t);
      ReachableInv(before, t);
      RunNow(before, t);
      StepConserves(Run(before, t), events[|events| - 1], t);
    }
  }

  lemma StepConserves(w: World, e: Event, t: Timing)
    requires Inv(w.channel, t) && w.now < UINT64_MAX && FreshEvent(e)
    requires w.accepted == w.returned + Pending(w.channel)
    ensures var w' := Step(w, e, t); w'.accepted == w'.returned + Pending(w'.channel)
  {
    match e
    case Read(p, warm) => ReadConserves(w, p, warm, t);
    case Write(p, warm) =>
    case Cycle => CycleConserves(w.channel, w.now, t);
  }

  lemma ReadConserves(w: World, p: Packet, warm: bool, t: Timing)
    requires Inv(w.channel, t) && !p.scheduled
    ensures var c' := AddRead(w.channel, p, warm).channel;
      Pending(c') == Pending(w.channel) + if Queued(w.channel, p, warm) then multiset{p.address} else multiset{}
  {
    var c := w.channel;
    var c' := AddRead(c, p, warm).channel;
    var slot := Lookup(c.rq.entry, 0, 0);
    if Queued(c, p, warm) {
      assert c'.rq.entry == c.rq.entry[slot := p];
      PendingUpdate(c, c', slot, p);
      assert p.address != 0;
    } else {
      assert c'.rq.entry == c.rq.entry;
    }
  }

  lemma CycleConserves(c: Channel, now: nat, t: Timing)
    requires Inv(c, t) && now < UINT64_MAX
    ensures var (c', returned) := Operate(c, now, t);
      Pending(c) == Pending(c') + multiset(Addresses(returned))
  {
    SwitchPending(c, now, t);
    SwitchKeeps(c, now, t);
    var d := SwitchMode(c, now, t);
    SchedulePending(d, now, t);
    TryScheduleKeeps(d, now, t);
    ProcessPending(TrySchedule(d, now, t), now, t);
  }

  // ----- The data bus -----------------------------------------------------------------------

  /** Consecutive transfers are a bus time apart, plus a turn-around for every switch in between. */
  ghost predicate Spaced(moves: seq<Move>, t: Timing) {
    forall i :: 0 < i < |moves| ==>
      moves[i].at >= moves[i - 1].at + t.busReturn + TURN_AROUND * moves[i].switches
  }

  /** The bus is reserved past the last transfer and every mode switch since. */
  ghost predicate BusReserved(w: World, t: Timing) {
    w.moves != [] ==>
      w.channel.busAvailable >= w.moves[|w.moves| - 1].at + t.busReturn + TURN_AROUND * w.switches
  }

  lemma {:induction false} BusSpacing(events: seq<Event>, t: Timing)
    ensures Spaced(Run(events, t).moves, t) && BusReserved(Run(events, t), t)
  {
    if events != [] {
      var before := events[..|events| - 1];
      BusSpacing(before, t);
      var w := Run(before, t);
      match events[|events| - 1]
      case Read(p, warm) =>
      case Write(p, warm) =>
      case Cycle => CycleSpacing(w, t);
    }
  }

  lemma CycleSpacing(w: World, t: Timing)
    requires |w.channel.banks| == BANKS && Spaced(w.moves, t) && BusReserved(w, t)
    ensures Spaced(Step(w, Cycle, t).moves, t) && BusReserved(Step(w, Cycle, t), t)
  {
    SwitchBus(w.channel, w.now, t);
    BusAfter(w.channel, w.now, t);
    var switched := NextMode(w.channel) != w.channel.writeMode;
    SpacedMove(w, Operate(w.channel, w.now, t).0.busAvailable, SwitchMode(w.channel, w.now, t).busAvailable, switched,
               Transfers(w.channel, w.now, t), t);
  }

  lemma SpacedMove(w: World, after: nat, before: nat, switched: bool, moved: bool, t: Timing)
    requires Spaced(w.moves, t) && BusReserved(w, t)
    requires before == w.channel.busAvailable + if switched then TURN_AROUND else 0
    requires after == if moved then w.now + t.busReturn else before
    requires moved ==> before <= w.now
    ensures var switches := w.switches + if switched then 1 else 0;
      var moves := if moved then w.moves + [Move(w.now, switches)] else w.moves;
      && Spaced(moves, t)
      && (moves != [] ==>
           after >= moves[|moves| - 1].at + t.busReturn + TURN_AROUND * if moved then 0 else switches)
  {
    assert TURN_AROUND == 30;
  }

  lemma SwitchBus(c: Channel, now: nat, t: Timing)
    requires |c.banks| == BANKS
    ensures SwitchMode(c, now, t).busAvailable ==
      c.busAvailable + if NextMode(c) != c.writeMode then TURN_AROUND else 0
  {
    var write := c.writeMode;
    ResetBus(c.(writeMode := !write), write, |QueueOf(c, write).entry|, now, t);
  }

  lemma {:induction false} ResetBus(c: Channel, write: bool, n: nat, now: nat, t: Timing)
    requires |c.banks| == BANKS && n <= |QueueOf(c, write).entry|
    ensures ResetFirst(c, write, n, now, t).busAvailable == c.busAvailable
  {
    if n > 0 {
      ResetBus(c, write, n - 1, now, t);
    }
  }

  lemma BusAfter(c: Channel, now: nat, t: Timing)
    requires |c.banks| == BANKS
    ensures var before := SwitchMode(c, now, t).busAvailable;
      Operate(c, now, t).0.busAvailable == if Transfers(c, now, t) then now + t.busReturn else before
    ensures Transfers(c, now, t) ==> SwitchMode(c, now, t).busAvailable <= now
  {
    assert TrySchedule(SwitchMode(c, now, t), now, t).busAvailable == SwitchMode(c, now, t).busAvailable;
  }

  // ----- Which request is served next -------------------------------------------------------

  /** Entry i is wanted, and oldest among the wanted, the lowest-numbered of those that tie. */
  ghost predicate Oldest(e: seq<Packet>, banks: seq<BankRequest>, want: Want, i: nat)
    requires |banks| == BANKS
  {
    && i < |e| && Wanted(e[i], banks, want) && e[i].eventCycle < UINT64_MAX
    && forall j :: 0 <= j < |e| && Wanted(e[j], banks, want) ==>
         e[i].eventCycle < e[j].eventCycle || (e[i].eventCycle == e[j].eventCycle && i <= j)
  }

  ghost predicate Absent(e: seq<Packet>, banks: seq<BankRequest>, want: Want)
    requires |banks| == BANKS
  {
    forall j :: 0 <= j < |e| && Wanted(e[j], banks, want) ==> e[j].eventCycle >= UINT64_MAX
  }

  /** The scheduler picks the oldest eligible open-row hit if there is one, else the oldest eligible
      request, else nothing. */
  lemma PickOldest(q: Queue, banks: seq<BankRequest>, i: nat)
    requires |banks| == BANKS
    ensures i < |q.entry| ==> (Pick(q, banks) == (i, true) <==> Oldest(q.entry, banks, RowHit, i))
    ensures i < |q.entry| ==> (Pick(q, banks) == (i, false) <==>
      Absent(q.entry, banks, RowHit) && Oldest(q.entry, banks, Eligible, i))
    ensures Pick(q, banks).0 == |q.entry| <==> Absent(q.entry, banks, Eligible)
  {
    ScanExact(q.entry, banks, RowHit, i);
    ScanExact(q.entry, banks, Eligible, i);
    var hit := Find(q.entry, banks, RowHit);
    EarliestIsLeast(q.entry, banks, RowHit, |q.entry|);
    assert hit < |q.entry| ==> Wanted(q.entry[hit], banks, Eligible);
  }

  lemma ScanExact(e: seq<Packet>, banks: seq<BankRequest>, want: Want, i: nat)
    requires |banks| == BANKS
    ensures i < |e| ==> (Find(e, banks, want) == i <==> Oldest(e, banks, want, i))
    ensures Find(e, banks, want) == |e| <==> Absent(e, banks, want)
  {
    var k := Find(e, banks, want);
    EarliestIsLeast(e, banks, want, |e|);
    if i < |e| && Oldest(e, banks, want, i) {
      assert k < |e| && e[k].eventCycle <= e[i].eventCycle;
    }
  }
}
