/** The DRAM controller as the program runs it: arrays of queue entries and bank records, updated in
    place.  Every method is proved equal to the state machine of module Dram, and the controller's
    internal checks appear as assertions. */
module DramController {
  import opened Dram
  import opened DramSafety

  class PacketQueue {
    const entry: array<Packet>
    const isWQ: bool
    var occupancy: int
    var scheduleIndex: nat
    var scheduleCycle: nat
    var processIndex: nat
    var processCycle: nat

    constructor (size: nat, isWQ: bool)
      ensures fresh(entry) && this.isWQ == isWQ && View() == EmptyQueue(size)
    {
      entry := new Packet[size](_ => EMPTY_PACKET);
      this.isWQ := isWQ;
      occupancy := 0;
      scheduleIndex, scheduleCycle := 0, UINT64_MAX;
      processIndex, processCycle := 0, UINT64_MAX;
      new;
      assert entry[..] == EmptyQueue(size).entry;
    }

    ghost function View(): (q: Queue)
      reads this, entry
    {
      Queue(entry[..], occupancy, scheduleIndex, scheduleCycle, processIndex, processCycle)
    }

    method UpdateScheduleCycle()
      modifies this`scheduleIndex, this`scheduleCycle
      ensures View() == Dram.UpdateScheduleCycle(old(View()))
    {
      var minCycle, minIndex := UINT64_MAX, entry.Length;
      var i := 0;
      while i < entry.Length
        invariant 0 <= i <= entry.Length
        invariant minIndex == Earliest(entry[..], ANY_BANKS, Waiting, i) && minCycle == CycleAt(entry[..], minIndex)
        modifies {}
      {
        if entry[i].address != 0 && !entry[i].scheduled && entry[i].eventCycle < minCycle {
          minCycle, minIndex := entry[i].eventCycle, i;
        }
        i := i + 1;
      }
      scheduleCycle, scheduleIndex := minCycle, minIndex;
    }

    method UpdateProcessCycle()
      modifies this`processIndex, this`processCycle
      ensures View() == Dram.UpdateProcessCycle(old(View()))
    {
      var minCycle, minIndex := UINT64_MAX, entry.Length;
      var i := 0;
      while i < entry.Length
        invariant 0 <= i <= entry.Length
        invariant minIndex == Earliest(entry[..], ANY_BANKS, InService, i) && minCycle == CycleAt(entry[..], minIndex)
        modifies {}
      {
        if entry[i].scheduled && entry[i].eventCycle < minCycle {
          minCycle, minIndex := entry[i].eventCycle, i;
        }
        i := i + 1;
      }
      processCycle, processIndex := minCycle, minIndex;
    }

    /** Entry i is in service until `done`. */
    method MarkScheduled(i: nat, done: nat)
      requires i < entry.Length
      modifies this, entry
      ensures View() ==
        var q := old(View());
        var q' := q.(entry := q.entry[i := q.entry[i].(scheduled := true, eventCycle := done)]);
        Dram.UpdateProcessCycle(Dram.UpdateScheduleCycle(q'))
    {
      entry[i] := entry[i].(scheduled := true, eventCycle := done);
      UpdateScheduleCycle();
      UpdateProcessCycle();
    }

    /** Index of the first entry with this address, or -1. */
    method CheckDramQueue(address: nat) returns (index: int)
      ensures var i := Lookup(entry[..], address, 0); index == if i < entry.Length then i else -1
    {
      index := 0;
      while index < entry.Length
        invariant 0 <= index <= entry.Length
        invariant Lookup(entry[..], address, 0) == Lookup(entry[..], address, index)
      {
        if entry[index].address == address {
          return;
        }
        index := index + 1;
      }
      index := -1;
    }

    /** Forget one entry, and find the next one to process. */
    method RemoveQueue(i: nat)
      requires i < entry.Length && occupancy > 0
      modifies this, entry
      ensures View() ==
        var q := old(View());
        Dram.UpdateProcessCycle(q.(entry := q.entry[i := EMPTY_PACKET], occupancy := q.occupancy - 1))
    {
      entry[i] := EMPTY_PACKET;
      occupancy := occupancy - 1;
      UpdateProcessCycle();
    }

    /** Put a packet in the first empty slot; with no empty slot it is lost. */
    method Place(p: Packet)
      modifies this, entry
      ensures View() ==
        var q := old(View());
        var slot := Lookup(q.entry, 0, 0);
        Dram.UpdateScheduleCycle(
          if slot < |q.entry| then q.(entry := q.entry[slot := p], occupancy := q.occupancy + 1) else q)
    {
      var index := 0;
      while index < entry.Length
        invariant 0 <= index <= entry.Length
        invariant Lookup(entry[..], 0, 0) == Lookup(entry[..], 0, index)
        invariant View() == old(View())
        modifies {}
      {
        if entry[index].address == 0 {
          break;
        }
        index := index + 1;
      }
      if index < entry.Length {
        entry[index] := p;
        occupancy := occupancy + 1;
        assert View() == old(View()).(entry := old(entry[..])[index := p], occupancy := old(occupancy) + 1);
      }
      UpdateScheduleCycle();
    }
  }

  class MemoryController {
    const timing: Timing
    const rq: PacketQueue
    const wq: PacketQueue
    const bank: array<BankRequest>
    var writeMode: bool
    var scheduledReads: int
    var scheduledWrites: int
    var busAvailable: nat

    constructor (timing: Timing)
      ensures this.timing == timing && fresh(rq) && fresh(wq) && fresh(bank) && fresh(rq.entry) && fresh(wq.entry)
      ensures Separate() && State() == Start() && Inv(State(), timing)
    {
      this.timing := timing;
      rq := new PacketQueue(RQ_SIZE, false);
      wq := new PacketQueue(WQ_SIZE, true);
      bank := new BankRequest[BANKS](_ => IDLE_BANK);
      writeMode, scheduledReads, scheduledWrites, busAvailable := false, 0, 0, 0;
      new;
      assert bank[..] == Start().banks;
      StartInv(timing);
    }

    /** The two queues and the banks are different objects. */
    predicate Separate()
      reads this, rq, wq
    {
      rq != wq && rq.entry != wq.entry && !rq.isWQ && wq.isWQ && bank.Length == BANKS
    }

    ghost function State(): (c: Channel)
      reads this, rq, rq.entry, wq, wq.entry, bank
    {
      Channel(rq.View(), wq.View(), bank[..], writeMode, scheduledReads, scheduledWrites, busAvailable)
    }

    /** Pick the request the row buffers favour, and put it in service. */
    method Schedule(queue: PacketQueue, now: nat)
      requires Separate() && (queue == rq || queue == wq)
      modifies this`scheduledReads, this`scheduledWrites, queue, queue.entry, bank
      ensures Separate() && State() == Dram.Schedule(old(State()), queue.isWQ, now, timing)
    {
      var hit := true;
      var oldestIndex := FindOldest(queue, true);
      if oldestIndex == queue.entry.Length {
        hit := false;
        oldestIndex := FindOldest(queue, false);
      }
      if oldestIndex < queue.entry.Length {
        Begin(queue, oldestIndex, hit, now);
      }
    }

    /** The oldest request whose bank is free and, if asked, whose row is open. */
    method FindOldest(queue: PacketQueue, openRow: bool) returns (oldest: nat)
      requires Separate() && (queue == rq || queue == wq)
      ensures oldest == Find(queue.entry[..], bank[..], if openRow then RowHit else Eligible)
    {
      var oldestCycle;
      oldest, oldestCycle := queue.entry.Length, UINT64_MAX;
      var i := 0;
      while i < queue.entry.Length
        invariant 0 <= i <= queue.entry.Length
        invariant oldest == Earliest(queue.entry[..], bank[..], if openRow then RowHit else Eligible, i)
        invariant oldestCycle == CycleAt(queue.entry[..], oldest)
      {
        var p := queue.entry[i];
        var b := bank[Bank(p.address)];
        if !p.scheduled && p.address != 0 && !b.working && (openRow ==> b.openRow == Row(p.address)) &&
           p.eventCycle < oldestCycle
        {
          oldest, oldestCycle := i, p.eventCycle;
        }
        i := i + 1;
      }
    }

    /** The bank starts to work for entry i. */
    method Occupy(b: nat, p: Packet, done: nat, i: nat, hit: bool, isWQ: bool)
      requires Separate() && b < BANKS
      modifies this`scheduledReads, this`scheduledWrites, bank
      ensures Separate() && State() ==
        var c := old(State());
        var record := c.banks[b].(working := true, workingType := p.kind, cycleAvailable := done, requestIndex := i,
                                  rowBufferHit := hit, isWrite := isWQ, isRead := !isWQ, openRow := Row(p.address));
        WithCount(c.(banks := c.banks[b := record]), isWQ, 1)
    {
      bank[b] := bank[b].(working := true, workingType := p.kind, cycleAvailable := done, requestIndex := i,
                          rowBufferHit := hit);
      if isWQ {
        bank[b] := bank[b].(isWrite := true, isRead := false);
        scheduledWrites := scheduledWrites + 1;
      } else {
        bank[b] := bank[b].(isWrite := false, isRead := true);
        scheduledReads := scheduledReads + 1;
      }
      bank[b] := bank[b].(openRow := Row(p.address));
    }

    /** The second half of `schedule`: the bank and the entry are now busy. */
    method Begin(queue: PacketQueue, i: nat, hit: bool, now: nat)
      requires Separate() && (queue == rq || queue == wq) && i < queue.entry.Length
      modifies this`scheduledReads, this`scheduledWrites, queue, queue.entry, bank
      ensures Separate() && State() == BeginService(old(State()), queue.isWQ, i, hit, now, timing)
    {
      var latency := if hit then timing.tCAS else timing.tRP + timing.tRCD + timing.tCAS;
      var p := queue.entry[i];
      Occupy(Bank(p.address), p, now + latency, i, hit, queue.isWQ);
      queue.MarkScheduled(i, now + latency);
    }

    /** Serve the request at the head of service, if its bank and the bus are ready. */
    method Process(queue: PacketQueue, now: nat) returns (returned: seq<Packet>)
      requires Separate() && (queue == rq || queue == wq)
      requires Owned(State(), queue.isWQ, timing) && Shape(State()) && HasInService(State(), queue.isWQ)
      modifies this`scheduledReads, this`scheduledWrites, this`busAvailable, queue, queue.entry, bank
      ensures Separate() && (State(), returned) == Dram.Process(old(State()), queue.isWQ, now, timing)
    {
      returned := [];
      var i := queue.processIndex;
      assert i != queue.entry.Length;
      var b := Bank(queue.entry[i].address);
      assert BankOk(State(), queue.isWQ, timing, b);
      assert bank[b].requestIndex == i;
      if bank[b].cycleAvailable <= now {
        if busAvailable <= now {
          assert i in Full(queue.entry[..]);
          returned := Move(queue, now);
        } else {
          bank[b] := bank[b].(cycleAvailable := busAvailable);
        }
      }
    }

    /** The data of the request at the head of service crosses the bus, and the request is removed. */
    method Move(queue: PacketQueue, now: nat) returns (returned: seq<Packet>)
      requires Separate() && (queue == rq || queue == wq)
      requires queue.processIndex < queue.entry.Length && queue.occupancy > 0
      modifies this`scheduledReads, this`scheduledWrites, this`busAvailable, queue, queue.entry, bank
      ensures Separate() && State() == Transfer(old(State()), queue.isWQ, now, timing)
      ensures returned == if queue.isWQ then [] else
        [old(queue.entry[queue.processIndex]).(eventCycle := now + timing.busReturn)]
    {
      var i := queue.processIndex;
      var b := Bank(queue.entry[i].address);
      busAvailable := now + timing.busReturn;
      if queue.isWQ {
        returned := [];
        bank[b] := ReleaseBank(bank[b]);
        scheduledWrites := scheduledWrites - 1;
      } else {
        returned := [queue.entry[i].(eventCycle := busAvailable)];
        bank[b] := ReleaseBank(bank[b]);
        scheduledReads := scheduledReads - 1;
      }
      queue.RemoveQueue(i);
    }

    /** Take every scheduled request of a queue out of service. */
    method ResetRemainRequests(queue: PacketQueue, now: nat)
      requires Separate() && (queue == rq || queue == wq)
      requires Owned(State(), queue.isWQ, timing) && Shape(State())
      modifies this`scheduledReads, this`scheduledWrites, rq, rq.entry, wq, wq.entry, bank
      ensures Separate() && State() == Reset(old(State()), queue.isWQ, now, timing)
    {
      ghost var start := State();
      var i := 0;
      while i < queue.entry.Length
        invariant 0 <= i <= queue.entry.Length && Separate()
        invariant State() == ResetFirst(start, queue.isWQ, i, now, timing)
        modifies this`scheduledReads, this`scheduledWrites, queue.entry, bank
      {
        ResetFirstKeeps(start, queue.isWQ, i, now, timing);
        ResetEntryKeeps(State(), queue.isWQ, i, now, timing);
        ResetOne(queue, i, now);
        i := i + 1;
      }
      RefreshQueues();
      ResetKeeps(start, queue.isWQ, now, timing);
      assert if queue.isWQ then scheduledWrites == 0 else scheduledReads == 0;
    }

    /** Free a bank whose access is abandoned; its row stays open if the activation was already paid. */
    method Abandon(b: nat, p: Packet, now: nat)
      requires b < bank.Length && timing.tCAS <= bank[b].cycleAvailable
      modifies this`scheduledReads, this`scheduledWrites, bank
      ensures bank[..] == old(bank[..])[b := old(bank[b]).(
        openRow := if old(bank[b]).cycleAvailable - timing.tCAS <= now then Row(p.address) else UINT32_MAX,
        requestIndex := -1, rowBufferHit := false, working := false, cycleAvailable := now,
        isWrite := false, isRead := if old(bank[b]).isWrite then old(bank[b]).isRead else false)]
      ensures scheduledWrites == old(scheduledWrites) - (if old(bank[b]).isWrite then 1 else 0)
      ensures scheduledReads == old(scheduledReads) - (if !old(bank[b]).isWrite && old(bank[b]).isRead then 1 else 0)
    {
      if bank[b].cycleAvailable - timing.tCAS <= now {
        bank[b] := bank[b].(openRow := Row(p.address));
      } else {
        bank[b] := bank[b].(openRow := UINT32_MAX);
      }
      bank[b] := bank[b].(requestIndex := -1, rowBufferHit := false, working := false, cycleAvailable := now);
      if bank[b].isWrite {
        scheduledWrites := scheduledWrites - 1;
        bank[b] := bank[b].(isWrite := false);
      } else if bank[b].isRead {
        scheduledReads := scheduledReads - 1;
        bank[b] := bank[b].(isRead := false);
      }
    }

    /** The body of the loop of `reset_remain_requests`. */
    method ResetOne(queue: PacketQueue, i: nat, now: nat)
      requires Separate() && (queue == rq || queue == wq) && i < queue.entry.Length
      requires queue.entry[i].scheduled ==> timing.tCAS <= bank[Bank(queue.entry[i].address)].cycleAvailable
      modifies this`scheduledReads, this`scheduledWrites, queue.entry, bank
      ensures Separate() && State() == ResetEntry(old(State()), queue.isWQ, i, now, timing)
    {
      if queue.entry[i].scheduled {
        var p := queue.entry[i];
        Abandon(Bank(p.address), p, now);
        queue.entry[i] := p.(scheduled := false, eventCycle := now);
      }
    }

    method RefreshQueues()
      requires Separate()
      modifies rq, wq
      ensures Separate() && State() == Refresh(old(State()))
    {
      rq.UpdateScheduleCycle();
      wq.UpdateScheduleCycle();
      rq.UpdateProcessCycle();
      wq.UpdateProcessCycle();
    }

    method ChooseMode(now: nat)
      requires Separate() && Inv(State(), timing)
      modifies this, rq, rq.entry, wq, wq.entry, bank
      ensures Separate() && State() == SwitchMode(old(State()), now, timing)
    {
      ghost var c := State();
      ghost var flipped := c.(writeMode := !c.writeMode);
      OwnedFrame(c, flipped, c.writeMode, timing);
      if !writeMode && (wq.occupancy >= WRITE_HIGH_WM || (rq.occupancy == 0 && wq.occupancy > 0)) {
        writeMode := true;
        ResetRemainRequests(rq, now);
        busAvailable := busAvailable + TURN_AROUND;
      } else if writeMode {
        if wq.occupancy == 0 {
          writeMode := false;
        } else if rq.occupancy != 0 && wq.occupancy < WRITE_LOW_WM {
          writeMode := false;
        }
        if !writeMode {
          ResetRemainRequests(wq, now);
          busAvailable := busAvailable + TURN_AROUND;
        }
      }
    }

    /** Schedule and process for one queue, in its own mode. */
    method Serve(queue: PacketQueue, now: nat) returns (returned: seq<Packet>)
      requires Separate() && Inv(State(), timing) && now < UINT64_MAX
      requires queue == if writeMode then wq else rq
      modifies this, queue, queue.entry, bank
      ensures Separate() && (State(), returned) == TryProcess(TrySchedule(old(State()), now, timing), now, timing)
    {
      returned := [];
      TryScheduleKeeps(State(), now, timing);
      if queue.scheduleIndex < queue.entry.Length && queue.scheduleCycle <= now {
        Schedule(queue, now);
      }
      if queue.processIndex < queue.entry.Length && queue.processCycle <= now {
        DueInService(State(), writeMode, now);
        returned := Process(queue, now);
      }
    }

    /** One cycle. */
    method Operate(now: nat) returns (returned: seq<Packet>)
      requires Separate() && Inv(State(), timing) && now < UINT64_MAX
      modifies this, rq, rq.entry, wq, wq.entry, bank
      ensures Separate() && (State(), returned) == Dram.Operate(old(State()), now, timing)
      ensures Inv(State(), timing)
    {
      OperateKeeps(State(), now, timing);
      SwitchKeeps(State(), now, timing);
      ChooseMode(now);
      if writeMode {
        returned := Serve(wq, now);
      } else {
        returned := Serve(rq, now);
      }
    }

    method AddRq(packet: Packet, warm: bool) returns (index: int, returned: seq<Packet>)
      requires Separate()
      modifies rq, rq.entry
      ensures Separate()
      ensures Accepted(State(), index, returned) == AddRead(old(State()), packet, warm)
    {
      if !warm {
        return -1, [packet];
      }
      var wqIndex := wq.CheckDramQueue(packet.address);
      if wqIndex != -1 {
        return -1, [packet.(data := wq.entry[wqIndex].data)];
      }
      index := rq.CheckDramQueue(packet.address);
      if index != -1 {
        return index, [];
      }
      rq.Place(packet);
      return -1, [];
    }

    method AddWq(packet: Packet, warm: bool) returns (index: int)
      requires Separate()
      modifies wq, wq.entry
      ensures Separate()
      ensures Accepted(State(), index, []) == AddWrite(old(State()), packet, warm)
    {
      if !warm {
        return -1;
      }
      index := wq.CheckDramQueue(packet.address);
      if index != -1 {
        return;
      }
      wq.Place(packet);
      index := -1;
    }
  }
}
