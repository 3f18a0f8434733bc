/** What every step of the DRAM channel keeps: queue slots, working banks and counters agree, so
    none of the controller's internal checks can fail. */
module DramSafety {
  import opened Dram

  ghost function Full(e: seq<Packet>): set<int> {
    set i | 0 <= i < |e| && e[i].address != 0
  }

  ghost function Busy(e: seq<Packet>): set<int> {
    set i | 0 <= i < |e| && e[i].scheduled
  }

  /** The cached minima of a queue are up to date. */
  ghost predicate IndicesOk(q: Queue) {
    && q.scheduleCycle == CycleAt(q.entry, Find(q.entry, ANY_BANKS, Waiting))
    && (q.scheduleCycle < UINT64_MAX ==> q.scheduleIndex == Find(q.entry, ANY_BANKS, Waiting))
    && q.processCycle == CycleAt(q.entry, Find(q.entry, ANY_BANKS, InService))
    && (q.processCycle < UINT64_MAX ==> q.processIndex == Find(q.entry, ANY_BANKS, InService))
  }

  ghost predicate QueueOk(q: Queue, size: nat) {
    && |q.entry| == size
    && q.occupancy == |Full(q.entry)|
    && (forall i :: 0 <= i < |q.entry| && q.entry[i].scheduled ==> q.entry[i].address != 0)
  }

  /** The bank's fields match the request that owns it, if any; `write` says whose requests own banks. */
  ghost predicate BankOk(c: Channel, write: bool, t: Timing, b: nat)
    requires b < |c.banks|
  {
    var q := QueueOf(c, write);
    var bank := c.banks[b];
    if bank.working then
      && 0 <= bank.requestIndex < |q.entry|
      && q.entry[bank.requestIndex].scheduled
      && Bank(q.entry[bank.requestIndex].address) == b
      && bank.isWrite == write && bank.isRead == !write
      && t.tCAS <= bank.cycleAvailable
      && (bank.cycleAvailable <= q.entry[bank.requestIndex].eventCycle || bank.cycleAvailable <= c.busAvailable)
    else
      bank.requestIndex == -1 && !bank.isWrite && !bank.isRead
  }

  /** Scheduled entries and working banks correspond one to one, and only one queue has any. */
  ghost predicate Owned(c: Channel, write: bool, t: Timing) {
    var q := QueueOf(c, write);
    && |c.banks| == BANKS
    && Busy(QueueOf(c, !write).entry) == {}
    && (forall i :: 0 <= i < |q.entry| && q.entry[i].scheduled ==>
         c.banks[Bank(q.entry[i].address)].working && c.banks[Bank(q.entry[i].address)].requestIndex == i)
    && (forall b :: 0 <= b < BANKS ==> BankOk(c, write, t, b))
    && c.scheduledReads == |Busy(c.rq.entry)|
    && c.scheduledWrites == |Busy(c.wq.entry)|
  }

  ghost predicate Shape(c: Channel) {
    QueueOk(c.rq, RQ_SIZE) && QueueOk(c.wq, WQ_SIZE)
  }

  ghost predicate Inv(c: Channel, t: Timing) {
    Owned(c, c.writeMode, t) && Shape(c) && IndicesOk(c.rq) && IndicesOk(c.wq)
  }

  // ----- Counting ---------------------------------------------------------------------------

  lemma BusyUpdate(e: seq<Packet>, i: nat, p: Packet)
    requires i < |e|
    ensures |Busy(e[i := p])| == |Busy(e)| + (if p.scheduled then 1 else 0) - (if e[i].scheduled then 1 else 0)
    ensures forall j :: j in Busy(e[i := p]) <==> if j == i then p.scheduled else j in Busy(e)
  {
    var rest := Busy(e) - {i};
    assert Busy(e) == if e[i].scheduled then rest + {i} else rest;
    assert Busy(e[i := p]) == if p.scheduled then rest + {i} else rest;
  }

  lemma FullUpdate(e: seq<Packet>, i: nat, p: Packet)
    requires i < |e|
    ensures |Full(e[i := p])| ==
      |Full(e)| + (if p.address != 0 then 1 else 0) - (if e[i].address != 0 then 1 else 0)
  {
    var rest := Full(e) - {i};
    assert Full(e) == if e[i].address != 0 then rest + {i} else rest;
    assert Full(e[i := p]) == if p.address != 0 then rest + {i} else rest;
  }

  // ----- Preservation -----------------------------------------------------------------------

  lemma StartInv(t: Timing)
    ensures Inv(Start(), t)
  {
    var c := Start();
    assert Busy(c.rq.entry) == {} && Busy(c.wq.entry) == {};
    assert Full(c.rq.entry) == {} && Full(c.wq.entry) == {};
  }

  /** Everything but entry i of the owning queue, its bank and the counters is as before. */
  ghost predicate Changed(c: Channel, c': Channel, write: bool, i: nat, p: Packet, b: nat, bank: BankRequest) {
    && |c.banks| == BANKS && b < BANKS && i < |QueueOf(c, write).entry|
    && QueueOf(c', write).entry == QueueOf(c, write).entry[i := p]
    && QueueOf(c', !write).entry == QueueOf(c, !write).entry
    && c'.banks == c.banks[b := bank]
    && c'.busAvailable >= c.busAvailable
  }

  lemma TakeBank(c: Channel, c': Channel, write: bool, t: Timing, i: nat, p: Packet, b: nat, bank: BankRequest)
    requires Owned(c, write, t) && Changed(c, c', write, i, p, b, bank)
    requires !QueueOf(c, write).entry[i].scheduled && !c.banks[b].working
    requires p.scheduled && Bank(p.address) == b
    requires bank.working && bank.requestIndex == i && bank.isWrite == write && bank.isRead == !write
    requires t.tCAS <= bank.cycleAvailable <= p.eventCycle
    requires c'.scheduledReads == c.scheduledReads + if write then 0 else 1
    requires c'.scheduledWrites == c.scheduledWrites + if write then 1 else 0
    ensures Owned(c', write, t)
  {
    BusyUpdate(QueueOf(c, write).entry, i, p);
    forall b' | 0 <= b' < BANKS ensures BankOk(c', write, t, b') {
      assert BankOk(c, write, t, b');
    }
  }

  lemma FreeBank(c: Channel, c': Channel, write: bool, t: Timing, i: nat, p: Packet, b: nat, bank: BankRequest)
    requires Owned(c, write, t) && Changed(c, c', write, i, p, b, bank)
    requires QueueOf(c, write).entry[i].scheduled && Bank(QueueOf(c, write).entry[i].address) == b
    requires !p.scheduled
    requires !bank.working && bank.requestIndex == -1 && !bank.isWrite && !bank.isRead
    requires c'.scheduledReads == c.scheduledReads - if write then 0 else 1
    requires c'.scheduledWrites == c.scheduledWrites - if write then 1 else 0
    ensures Owned(c', write, t)
  {
    BusyUpdate(QueueOf(c, write).entry, i, p);
    forall b' | 0 <= b' < BANKS ensures BankOk(c', write, t, b') {
      assert BankOk(c, write, t, b');
    }
  }

  lemma PickSchedulable(q: Queue, banks: seq<BankRequest>)
    requires |banks| == BANKS && Pick(q, banks).0 < |q.entry|
    ensures Wanted(q.entry[Pick(q, banks).0], banks, Eligible)
  {
    EarliestIsLeast(q.entry, banks, RowHit, |q.entry|);
    EarliestIsLeast(q.entry, banks, Eligible, |q.entry|);
  }

  lemma BeginServiceKeeps(c: Channel, write: bool, i: nat, hit: bool, now: nat, t: Timing)
    requires Owned(c, write, t) && Shape(c) && IndicesOk(c.rq) && IndicesOk(c.wq)
    requires i < |QueueOf(c, write).entry| && Wanted(QueueOf(c, write).entry[i], c.banks, Eligible)
    ensures var c' := BeginService(c, write, i, hit, now, t);
      Owned(c', write, t) && Shape(c') && IndicesOk(c'.rq) && IndicesOk(c'.wq)
  {
    var q := QueueOf(c, write);
    var c' := BeginService(c, write, i, hit, now, t);
    var p := q.entry[i].(scheduled := true, eventCycle := now + Latency(t, hit));
    var b := Bank(p.address);
    FullUpdate(q.entry, i, p);
    TakeBank(c, c', write, t, i, p, b, c'.banks[b]);
  }

  lemma ScheduleKeeps(c: Channel, write: bool, now: nat, t: Timing)
    requires Owned(c, write, t) && Shape(c) && IndicesOk(c.rq) && IndicesOk(c.wq)
    ensures var c' := Schedule(c, write, now, t);
      Owned(c', write, t) && Shape(c') && IndicesOk(c'.rq) && IndicesOk(c'.wq)
  {
    var q := QueueOf(c, write);
    var (i, hit) := Pick(q, c.banks);
    if i < |q.entry| {
      PickSchedulable(q, c.banks);
      BeginServiceKeeps(c, write, i, hit, now, t);
    }
  }

  /** A scan does not notice a change between two packets it does not want. */
  lemma {:induction false} ScanIgnores(e: seq<Packet>, i: nat, p: Packet, banks: seq<BankRequest>, want: Want, n: nat)
    requires |banks| == BANKS && i < |e| && n <= |e|
    requires !Wanted(e[i], banks, want) && !Wanted(p, banks, want)
    ensures Earliest(e[i := p], banks, want, n) == Earliest(e, banks, want, n)
  {
    if n > 0 {
      EarliestIsLeast(e, banks, want, n - 1);
      ScanIgnores(e, i, p, banks, want, n - 1);
    }
  }

  /** The condition under which `process` is called with a live index. */
  ghost predicate HasInService(c: Channel, write: bool) {
    var q := QueueOf(c, write);
    q.processIndex < |q.entry| && q.entry[q.processIndex].scheduled
  }

  lemma TransferIndices(q: Queue, i: nat)
    requires IndicesOk(q) && i < |q.entry| && q.entry[i].scheduled
    ensures IndicesOk(UpdateProcessCycle(q.(entry := q.entry[i := EMPTY_PACKET], occupancy := q.occupancy - 1)))
  {
    ScanIgnores(q.entry, i, EMPTY_PACKET, ANY_BANKS, Waiting, |q.entry|);
    EarliestIsLeast(q.entry, ANY_BANKS, Waiting, |q.entry|);
  }

  lemma TransferKeeps(c: Channel, write: bool, now: nat, t: Timing)
    requires Owned(c, write, t) && Shape(c) && IndicesOk(c.rq) && IndicesOk(c.wq) && HasInService(c, write)
    requires c.busAvailable <= now
    ensures var c' := Transfer(c, write, now, t);
      Owned(c', write, t) && Shape(c') && IndicesOk(c'.rq) && IndicesOk(c'.wq)
  {
    var q := QueueOf(c, write);
    var i := q.processIndex;
    var b := Bank(q.entry[i].address);
    FullUpdate(q.entry, i, EMPTY_PACKET);
    TransferIndices(q, i);
    FreeBank(c, Transfer(c, write, now, t), write, t, i, EMPTY_PACKET, b, ReleaseBank(c.banks[b]));
  }

  lemma DeferKeeps(c: Channel, write: bool, t: Timing)
    requires Owned(c, write, t) && HasInService(c, write)
    requires
      var q := QueueOf(c, write);
      c.banks[Bank(q.entry[q.processIndex].address)].cycleAvailable <= c.busAvailable
    ensures Owned(Defer(c, write), write, t)
  {
    var c' := Defer(c, write);
    forall b' | 0 <= b' < BANKS ensures BankOk(c', write, t, b') {
      assert BankOk(c, write, t, b');
    }
  }

  lemma ProcessKeeps(c: Channel, write: bool, now: nat, t: Timing)
    requires Owned(c, write, t) && Shape(c) && IndicesOk(c.rq) && IndicesOk(c.wq) && HasInService(c, write)
    ensures var c' := Process(c, write, now, t).0;
      Owned(c', write, t) && Shape(c') && IndicesOk(c'.rq) && IndicesOk(c'.wq)
  {
    var q := QueueOf(c, write);
    var bank := c.banks[Bank(q.entry[q.processIndex].address)];
    if bank.cycleAvailable <= now {
      if c.busAvailable <= now {
        TransferKeeps(c, write, now, t);
      } else {
        DeferKeeps(c, write, t);
      }
    }
  }

  /** Ownership depends on the banks, the entries and the counters only, and survives a later bus. */
  lemma OwnedFrame(c: Channel, c': Channel, write: bool, t: Timing)
    requires Owned(c, write, t)
    requires c'.banks == c.banks && c'.rq.entry == c.rq.entry && c'.wq.entry == c.wq.entry
    requires c'.scheduledReads == c.scheduledReads && c'.scheduledWrites == c.scheduledWrites
    requires c'.busAvailable >= c.busAvailable
    ensures Owned(c', write, t)
  {
    assert QueueOf(c', write).entry == QueueOf(c, write).entry && QueueOf(c', !write).entry == QueueOf(c, !write).entry;
    forall b | 0 <= b < BANKS ensures BankOk(c', write, t, b) {
      assert BankOk(c, write, t, b);
    }
  }

  /** With nothing scheduled, either queue may be said to own the banks. */
  lemma NobodyOwns(c: Channel, write: bool, t: Timing)
    requires Owned(c, write, t) && Busy(QueueOf(c, write).entry) == {}
    ensures Owned(c, !write, t)
  {
    NoneBusy(QueueOf(c, write).entry);
    NoneBusy(QueueOf(c, !write).entry);
    var other := !write;
    forall b | 0 <= b < BANKS ensures BankOk(c, other, t, b) {
      assert BankOk(c, write, t, b);
    }
  }

  lemma NoneBusy(e: seq<Packet>)
    requires Busy(e) == {}
    ensures forall i :: 0 <= i < |e| ==> !e[i].scheduled
  {
    forall i | 0 <= i < |e| ensures !e[i].scheduled {
      assert i !in Busy(e);
    }
  }

  // ----- Mode switches ----------------------------------------------------------------------

  /** The unsigned subtraction in a reset never wraps, and the reset leaves its bank unowned. */
  lemma ResetEntryKeeps(c: Channel, write: bool, i: nat, now: nat, t: Timing)
    requires Owned(c, write, t) && Shape(c) && i < |QueueOf(c, write).entry|
    ensures var c' := ResetEntry(c, write, i, now, t);
      && Owned(c', write, t) && Shape(c') && c'.writeMode == c.writeMode && c'.busAvailable == c.busAvailable
      && (forall j :: 0 <= j < |QueueOf(c, write).entry| ==>
            QueueOf(c', write).entry[j] == if j == i && QueueOf(c, write).entry[i].scheduled
              then QueueOf(c, write).entry[i].(scheduled := false, eventCycle := now)
              else QueueOf(c, write).entry[j])
      && QueueOf(c', !write) == QueueOf(c, !write)
      && QueueOf(c', write).occupancy == QueueOf(c, write).occupancy
    ensures var p := QueueOf(c, write).entry[i];
      p.scheduled ==> t.tCAS <= c.banks[Bank(p.address)].cycleAvailable
  {
    var q := QueueOf(c, write);
    var p := q.entry[i];
    if p.scheduled {
      var b := Bank(p.address);
      assert BankOk(c, write, t, b);
      var c' := ResetEntry(c, write, i, now, t);
      var p' := p.(scheduled := false, eventCycle := now);
      FullUpdate(q.entry, i, p');
      FreeBank(c, c', write, t, i, p', b, c'.banks[b]);
    }
  }

  /** Between entries low and high, what was scheduled has been reset; nothing else has changed but the banks. */
  ghost predicate ResetBetween(c: Channel, c': Channel, write: bool, low: nat, high: nat, now: nat) {
    var e, e' := QueueOf(c, write).entry, QueueOf(c', write).entry;
    && c'.writeMode == c.writeMode && c'.busAvailable == c.busAvailable
    && QueueOf(c', !write) == QueueOf(c, !write) && QueueOf(c', write).occupancy == QueueOf(c, write).occupancy
    && |e'| == |e|
    && forall j :: 0 <= j < |e| ==>
         e'[j] == if low <= j < high && e[j].scheduled then e[j].(scheduled := false, eventCycle := now) else e[j]
  }

  lemma ResetOneMore(c: Channel, c1: Channel, c2: Channel, write: bool, n: nat, now: nat)
    requires ResetBetween(c, c1, write, 0, n, now) && ResetBetween(c1, c2, write, n, n + 1, now)
    ensures ResetBetween(c, c2, write, 0, n + 1, now)
  {}

  lemma {:induction false} ResetFirstKeeps(c: Channel, write: bool, n: nat, now: nat, t: Timing)
    requires Owned(c, write, t) && Shape(c) && n <= |QueueOf(c, write).entry|
    ensures var c' := ResetFirst(c, write, n, now, t);
      Owned(c', write, t) && Shape(c') && ResetBetween(c, c', write, 0, n, now)
  {
    if n > 0 {
      ResetFirstKeeps(c, write, n - 1, now, t);
      var c1 := ResetFirst(c, write, n - 1, now, t);
      ResetEntryKeeps(c1, write, n - 1, now, t);
      ResetOneMore(c, c1, ResetEntry(c1, write, n - 1, now, t), write, n - 1, now);
    }
  }

  /** After a reset no request is scheduled and no bank is working, in whichever mode. */
  lemma ResetKeeps(c: Channel, write: bool, now: nat, t: Timing)
    requires Owned(c, write, t) && Shape(c)
    ensures var c' := Reset(c, write, now, t);
      && Owned(c', write, t) && Owned(c', !write, t) && Shape(c') && IndicesOk(c'.rq) && IndicesOk(c'.wq)
      && c'.scheduledReads == 0 && c'.scheduledWrites == 0
      && c'.writeMode == c.writeMode && c'.busAvailable == c.busAvailable
      && c'.rq.occupancy == c.rq.occupancy && c'.wq.occupancy == c.wq.occupancy
      && QueueOf(c', !write).entry == QueueOf(c, !write).entry
      && (forall j :: 0 <= j < |QueueOf(c, write).entry| ==>
            QueueOf(c', write).entry[j] == if QueueOf(c, write).entry[j].scheduled
              then QueueOf(c, write).entry[j].(scheduled := false, eventCycle := now)
              else QueueOf(c, write).entry[j])
  {
    var n := |QueueOf(c, write).entry|;
    ResetFirstKeeps(c, write, n, now, t);
    var mid := ResetFirst(c, write, n, now, t);
    assert Busy(QueueOf(mid, write).entry) == {};
    var c' := Reset(c, write, now, t);
    OwnedFrame(mid, c', write, t);
    NobodyOwns(c', write, t);
  }

  lemma SwitchKeeps(c: Channel, now: nat, t: Timing)
    requires Inv(c, t)
    ensures Inv(SwitchMode(c, now, t), t)
    ensures SwitchMode(c, now, t).writeMode == NextMode(c)
  {
    if NextMode(c) != c.writeMode {
      var d := c.(writeMode := !c.writeMode);
      OwnedFrame(c, d, c.writeMode, t);
      ResetKeeps(d, c.writeMode, now, t);
      OwnedFrame(Reset(d, c.writeMode, now, t), SwitchMode(c, now, t), !c.writeMode, t);
    }
  }

  // ----- A whole cycle ----------------------------------------------------------------------

  /** When the cached minimum says a packet is due, it points at a scheduled one. */
  lemma DueInService(c: Channel, write: bool, now: nat)
    requires IndicesOk(c.rq) && IndicesOk(c.wq) && now < UINT64_MAX
    requires QueueOf(c, write).processCycle <= now
    ensures HasInService(c, write)
  {
    var q := QueueOf(c, write);
    EarliestIsLeast(q.entry, ANY_BANKS, InService, |q.entry|);
  }

  lemma OperateKeeps(c: Channel, now: nat, t: Timing)
    requires Inv(c, t) && now < UINT64_MAX
    ensures Inv(Operate(c, now, t).0, t)
  {
    SwitchKeeps(c, now, t);
    var c1 := SwitchMode(c, now, t);
    TryScheduleKeeps(c1, now, t);
    TryProcessKeeps(TrySchedule(c1, now, t), now, t);
  }

  lemma TryScheduleKeeps(c: Channel, now: nat, t: Timing)
    requires Inv(c, t)
    ensures Inv(TrySchedule(c, now, t), t)
  {
    ScheduleKeeps(c, c.writeMode, now, t);
  }

  lemma TryProcessKeeps(c: Channel, now: nat, t: Timing)
    requires Inv(c, t) && now < UINT64_MAX
    ensures Inv(TryProcess(c, now, t).0, t)
  {
    if QueueOf(c, c.writeMode).processCycle <= now {
      DueInService(c, c.writeMode, now);
      ProcessKeeps(c, c.writeMode, now, t);
    }
  }

  // ----- Arrivals ---------------------------------------------------------------------------

  lemma InsertQueue(q: Queue, size: nat, slot: nat, p: Packet)
    requires QueueOk(q, size) && IndicesOk(q) && slot < |q.entry| && q.entry[slot].address == 0
    requires p.address != 0 && !p.scheduled
    ensures var q' := UpdateScheduleCycle(q.(entry := q.entry[slot := p], occupancy := q.occupancy + 1));
      QueueOk(q', size) && IndicesOk(q')
  {
    FullUpdate(q.entry, slot, p);
    ScanIgnores(q.entry, slot, p, ANY_BANKS, InService, |q.entry|);
    EarliestIsLeast(q.entry, ANY_BANKS, InService, |q.entry|);
  }

  lemma InsertKeeps(c: Channel, write: bool, p: Packet, t: Timing)
    requires Inv(c, t) && !p.scheduled
    requires p.address == 0 ==> Lookup(QueueOf(c, write).entry, 0, 0) == |QueueOf(c, write).entry|
    ensures Inv(Insert(c, write, p), t)
  {
    var q := QueueOf(c, write);
    var slot := Lookup(q.entry, 0, 0);
    if slot < |q.entry| {
      InsertQueue(q, |q.entry|, slot, p);
      InsertOwned(c, write, slot, p, t);
    } else {
      OwnedFrame(c, Insert(c, write, p), c.writeMode, t);
    }
  }

  lemma InsertOwned(c: Channel, write: bool, slot: nat, p: Packet, t: Timing)
    requires Inv(c, t) && !p.scheduled && slot == Lookup(QueueOf(c, write).entry, 0, 0) < |QueueOf(c, write).entry|
    ensures Owned(Insert(c, write, p), c.writeMode, t)
  {
    var q := QueueOf(c, write);
    var c' := Insert(c, write, p);
    BusyUpdate(q.entry, slot, p);
    assert Busy(QueueOf(c', write).entry) == Busy(q.entry);
    forall b | 0 <= b < BANKS ensures BankOk(c', c.writeMode, t, b) {
      assert BankOk(c, c.writeMode, t, b);
    }
  }

  lemma AddKeeps(c: Channel, p: Packet, warm: bool, t: Timing)
    requires Inv(c, t) && !p.scheduled
    ensures Inv(AddRead(c, p, warm).channel, t)
    ensures Inv(AddWrite(c, p, warm).channel, t)
  {
    if Lookup(c.rq.entry, p.address, 0) == |c.rq.entry| {
      InsertKeeps(c, false, p, t);
    }
    if Lookup(c.wq.entry, p.address, 0) == |c.wq.entry| {
      InsertKeeps(c, true, p, t);
    }
  }
}
