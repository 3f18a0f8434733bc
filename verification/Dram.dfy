/** One DRAM channel as a state machine: two request queues, eight banks with open rows, a shared
    data bus and a read/write mode.  DRAM_CHANNELS and DRAM_RANKS are 1, so one channel is the
    whole controller. */
module Dram {

  // ----- Configuration ----------------------------------------------------------------------

  const RQ_SIZE: nat := 64
  const WQ_SIZE: nat := 64
  const BANKS: nat := 8
  const COLUMNS: nat := 128
  const ROWS: nat := 65536
  const WRITE_HIGH_WM: nat := (WQ_SIZE * 7) / 8
  const WRITE_LOW_WM: nat := (WQ_SIZE * 3) / 4
  const TURN_AROUND: nat := (15 * 4000) / 2000
  const UINT64_MAX: nat := 0xFFFF_FFFF_FFFF_FFFF
  const UINT32_MAX: nat := 0xFFFF_FFFF

  /** Latencies in core cycles, fixed at start-up from the chosen memory speed. */
  datatype Timing = Timing(tRP: nat, tRCD: nat, tCAS: nat, busReturn: nat)

  // ----- Entities ---------------------------------------------------------------------------

  datatype Packet = Packet(address: nat, data: nat, kind: nat, instruction: bool, scheduled: bool, eventCycle: nat)

  const EMPTY_PACKET := Packet(0, 0, 0, false, false, UINT64_MAX)

  datatype BankRequest = BankRequest(cycleAvailable: nat, openRow: nat, working: bool, workingType: nat,
                                     rowBufferHit: bool, isWrite: bool, isRead: bool, requestIndex: int)

  const IDLE_BANK := BankRequest(0, UINT32_MAX, false, 0, false, false, false, -1)

  /** Scans that do not look at the banks are given these. */
  const ANY_BANKS := [IDLE_BANK, IDLE_BANK, IDLE_BANK, IDLE_BANK, IDLE_BANK, IDLE_BANK, IDLE_BANK, IDLE_BANK]

  datatype Queue = Queue(entry: seq<Packet>, occupancy: int,
                         scheduleIndex: nat, scheduleCycle: nat, processIndex: nat, processCycle: nat)

  datatype Channel = Channel(rq: Queue, wq: Queue, banks: seq<BankRequest>, writeMode: bool,
                             scheduledReads: int, scheduledWrites: int, busAvailable: nat)

  function EmptyQueue(size: nat): Queue {
    Queue(seq(size, _ => EMPTY_PACKET), 0, 0, UINT64_MAX, 0, UINT64_MAX)
  }

  function Start(): Channel {
    Channel(EmptyQueue(RQ_SIZE), EmptyQueue(WQ_SIZE), seq(BANKS, _ => IDLE_BANK), false, 0, 0, 0)
  }

  // ----- Address decoding -------------------------------------------------------------------

  function Bank(address: nat): (b: nat)
    ensures b < BANKS
  {
    address % BANKS
  }

  function Row(address: nat): nat {
    (address / (BANKS * COLUMNS)) % ROWS
  }

  /** Subtraction of unsigned 64-bit values. */
  function Minus64(a: nat, b: nat): nat {
    if b <= a then a - b else (a - b) % (UINT64_MAX + 1)
  }

  // ----- Searching a queue ------------------------------------------------------------------

  /** What a scan of a queue is looking for. */
  datatype Want = Waiting | InService | Eligible | RowHit

  predicate Wanted(p: Packet, banks: seq<BankRequest>, want: Want)
    requires |banks| == BANKS
  {
    match want
    case Waiting => p.address != 0 && !p.scheduled
    case InService => p.scheduled
    case Eligible => p.address != 0 && !p.scheduled && !banks[Bank(p.address)].working
    case RowHit => p.address != 0 && !p.scheduled && !banks[Bank(p.address)].working &&
                   banks[Bank(p.address)].openRow == Row(p.address)
  }

  function CycleAt(e: seq<Packet>, i: nat): nat {
    if i < |e| then e[i].eventCycle else UINT64_MAX
  }

  /** The lowest-numbered wanted packet of least event cycle among the first n; |e| if none. */
  function Earliest(e: seq<Packet>, banks: seq<BankRequest>, want: Want, n: nat): (i: nat)
    requires |banks| == BANKS && n <= |e|
    ensures i < n || i == |e|
  {
    if n == 0 then |e| else
    var best := Earliest(e, banks, want, n - 1);
    if Wanted(e[n - 1], banks, want) && e[n - 1].eventCycle < CycleAt(e, best) then n - 1 else best
  }

  /** What Earliest returns: a wanted packet that no other wanted packet among the first n beats. */
  lemma {:induction false} EarliestIsLeast(e: seq<Packet>, banks: seq<BankRequest>, want: Want, n: nat)
    requires |banks| == BANKS && n <= |e|
    ensures var i := Earliest(e, banks, want, n);
      && (i < |e| ==> Wanted(e[i], banks, want) && e[i].eventCycle < UINT64_MAX)
      && forall j :: 0 <= j < n && Wanted(e[j], banks, want) && e[j].eventCycle < UINT64_MAX ==>
           i < |e| && e[i].eventCycle <= e[j].eventCycle && (j < i ==> e[i].eventCycle < e[j].eventCycle)
  {
    if n > 0 {
      EarliestIsLeast(e, banks, want, n - 1);
    }
  }

  function Find(e: seq<Packet>, banks: seq<BankRequest>, want: Want): (i: nat)
    requires |banks| == BANKS
    ensures i <= |e|
  {
    Earliest(e, banks, want, |e|)
  }

  /** First entry with the given address among those from n on; |e| if none. */
  function Lookup(e: seq<Packet>, address: nat, n: nat): (i: nat)
    requires n <= |e|
    ensures n <= i <= |e|
    ensures i < |e| ==> e[i].address == address
    ensures forall j :: n <= j < i ==> e[j].address != address
    decreases |e| - n
  {
    if n == |e| || e[n].address == address then n else Lookup(e, address, n + 1)
  }

  function UpdateScheduleCycle(q: Queue): Queue {
    var i := Find(q.entry, ANY_BANKS, Waiting);
    q.(scheduleIndex := i, scheduleCycle := CycleAt(q.entry, i))
  }

  function UpdateProcessCycle(q: Queue): Queue {
    var i := Find(q.entry, ANY_BANKS, InService);
    q.(processIndex := i, processCycle := CycleAt(q.entry, i))
  }

  // ----- Steps ------------------------------------------------------------------------------

  function QueueOf(c: Channel, write: bool): Queue {
    if write then c.wq else c.rq
  }

  function WithQueue(c: Channel, write: bool, q: Queue): Channel {
    if write then c.(wq := q) else c.(rq := q)
  }

  function WithCount(c: Channel, write: bool, delta: int): Channel {
    if write then c.(scheduledWrites := c.scheduledWrites + delta) else c.(scheduledReads := c.scheduledReads + delta)
  }

  /** What `schedule` picks: the oldest eligible open-row hit, else the oldest eligible request. */
  function Pick(q: Queue, banks: seq<BankRequest>): (pick: (nat, bool))
    requires |banks| == BANKS
    ensures pick.0 <= |q.entry|
  {
    var hit := Find(q.entry, banks, RowHit);
    if hit < |q.entry| then (hit, true) else (Find(q.entry, banks, Eligible), false)
  }

  function Latency(t: Timing, rowBufferHit: bool): nat {
    if rowBufferHit then t.tCAS else t.tRP + t.tRCD + t.tCAS
  }

  /** Give entry i its bank: the bank is busy, and the entry in service, for the access latency. */
  function BeginService(c: Channel, write: bool, i: nat, hit: bool, now: nat, t: Timing): Channel
    requires |c.banks| == BANKS && i < |QueueOf(c, write).entry|
  {
    var q := QueueOf(c, write);
    var p := q.entry[i];
    var done := now + Latency(t, hit);
    var b := Bank(p.address);
    var bank := c.banks[b].(working := true, workingType := p.kind, cycleAvailable := done, requestIndex := i,
                            rowBufferHit := hit, isWrite := write, isRead := !write, openRow := Row(p.address));
    var q' := q.(entry := q.entry[i := p.(scheduled := true, eventCycle := done)]);
    WithCount(WithQueue(c.(banks := c.banks[b := bank]), write, UpdateProcessCycle(UpdateScheduleCycle(q'))), write, 1)
  }

  /** `schedule`. */
  function Schedule(c: Channel, write: bool, now: nat, t: Timing): (c': Channel)
    requires |c.banks| == BANKS
    ensures |c'.banks| == BANKS
  {
    var (i, hit) := Pick(QueueOf(c, write), c.banks);
    if i == |QueueOf(c, write).entry| then c else BeginService(c, write, i, hit, now, t)
  }

  function ReleaseBank(b: BankRequest): BankRequest {
    b.(requestIndex := -1, rowBufferHit := false, working := false, isWrite := false, isRead := false)
  }

  /** Move the data of the packet at the head of service over the bus, and remove it. */
  function Transfer(c: Channel, write: bool, now: nat, t: Timing): Channel
    requires |c.banks| == BANKS && QueueOf(c, write).processIndex < |QueueOf(c, write).entry|
  {
    var q := QueueOf(c, write);
    var b := Bank(q.entry[q.processIndex].address);
    var q' := q.(entry := q.entry[q.processIndex := EMPTY_PACKET], occupancy := q.occupancy - 1);
    var c' := c.(banks := c.banks[b := ReleaseBank(c.banks[b])], busAvailable := now + t.busReturn);
    WithCount(WithQueue(c', write, UpdateProcessCycle(q')), write, -1)
  }

  /** Put the bank of the packet at the head of service off until the bus is free. */
  function Defer(c: Channel, write: bool): Channel
    requires |c.banks| == BANKS && QueueOf(c, write).processIndex < |QueueOf(c, write).entry|
  {
    var q := QueueOf(c, write);
    var b := Bank(q.entry[q.processIndex].address);
    c.(banks := c.banks[b := c.banks[b].(cycleAvailable := c.busAvailable)])
  }

  /** `process`; the second component lists the reads handed back to the cache. */
  function Process(c: Channel, write: bool, now: nat, t: Timing): (r: (Channel, seq<Packet>))
    requires |c.banks| == BANKS && QueueOf(c, write).processIndex < |QueueOf(c, write).entry|
    ensures |r.0.banks| == BANKS
  {
    var q := QueueOf(c, write);
    var p := q.entry[q.processIndex];
    if c.banks[Bank(p.address)].cycleAvailable > now then (c, [])
    else if c.busAvailable > now then (Defer(c, write), [])
    else (Transfer(c, write, now, t), if write then [] else [p.(eventCycle := now + t.busReturn)])
  }

  /** Give back one scheduled request's bank and make the request schedulable again. */
  function ResetEntry(c: Channel, write: bool, i: nat, now: nat, t: Timing): Channel
    requires |c.banks| == BANKS && i < |QueueOf(c, write).entry|
  {
    var q := QueueOf(c, write);
    var p := q.entry[i];
    if !p.scheduled then c else
    var b := Bank(p.address);
    var bank := c.banks[b];
    var openRow := if Minus64(bank.cycleAvailable, t.tCAS) <= now then Row(p.address) else UINT32_MAX;
    var bank' := bank.(openRow := openRow, requestIndex := -1, rowBufferHit := false, working := false,
                       cycleAvailable := now, isWrite := false,
                       isRead := if bank.isWrite then bank.isRead else false);
    var c' := WithQueue(c.(banks := c.banks[b := bank']), write,
                        q.(entry := q.entry[i := p.(scheduled := false, eventCycle := now)]));
    if bank.isWrite then WithCount(c', true, -1) else if bank.isRead then WithCount(c', false, -1) else c'
  }

  /** ResetEntry for the first n entries, in order. */
  function ResetFirst(c: Channel, write: bool, n: nat, now: nat, t: Timing): (c': Channel)
    requires |c.banks| == BANKS && n <= |QueueOf(c, write).entry|
    ensures |c'.banks| == BANKS && |QueueOf(c', write).entry| == |QueueOf(c, write).entry|
  {
    if n == 0 then c else ResetEntry(ResetFirst(c, write, n - 1, now, t), write, n - 1, now, t)
  }

  function Refresh(c: Channel): Channel {
    c.(rq := UpdateProcessCycle(UpdateScheduleCycle(c.rq)), wq := UpdateProcessCycle(UpdateScheduleCycle(c.wq)))
  }

  /** `reset_remain_requests`. */
  function Reset(c: Channel, write: bool, now: nat, t: Timing): (c': Channel)
    requires |c.banks| == BANKS
    ensures |c'.banks| == BANKS
  {
    Refresh(ResetFirst(c, write, |QueueOf(c, write).entry|, now, t))
  }

  /** The read/write mode chosen at the start of a cycle. */
  function NextMode(c: Channel): bool {
    if c.writeMode
    then !(c.wq.occupancy == 0 || (c.rq.occupancy != 0 && c.wq.occupancy < WRITE_LOW_WM))
    else c.wq.occupancy >= WRITE_HIGH_WM || (c.rq.occupancy == 0 && c.wq.occupancy > 0)
  }

  function SwitchMode(c: Channel, now: nat, t: Timing): (c': Channel)
    requires |c.banks| == BANKS
    ensures |c'.banks| == BANKS
  {
    if NextMode(c) == c.writeMode then c else
    var c' := Reset(c.(writeMode := !c.writeMode), c.writeMode, now, t);
    c'.(busAvailable := c'.busAvailable + TURN_AROUND)
  }

  function TrySchedule(c: Channel, now: nat, t: Timing): (c': Channel)
    requires |c.banks| == BANKS
    ensures |c'.banks| == BANKS
  {
    var q := QueueOf(c, c.writeMode);
    if q.scheduleIndex < |q.entry| && q.scheduleCycle <= now then Schedule(c, c.writeMode, now, t) else c
  }

  function TryProcess(c: Channel, now: nat, t: Timing): (r: (Channel, seq<Packet>))
    requires |c.banks| == BANKS
    ensures |r.0.banks| == BANKS
  {
    var q := QueueOf(c, c.writeMode);
    if q.processIndex < |q.entry| && q.processCycle <= now then Process(c, c.writeMode, now, t) else (c, [])
  }

  /** `operate`: one cycle of the controller. */
  function Operate(c: Channel, now: nat, t: Timing): (r: (Channel, seq<Packet>))
    requires |c.banks| == BANKS
    ensures |r.0.banks| == BANKS
  {
    TryProcess(TrySchedule(SwitchMode(c, now, t), now, t), now, t)
  }

  // ----- Arrivals ---------------------------------------------------------------------------

  datatype Accepted = Accepted(channel: Channel, index: int, returned: seq<Packet>)

  function Insert(c: Channel, write: bool, p: Packet): (c': Channel)
    requires |c.banks| == BANKS
    ensures |c'.banks| == BANKS
  {
    var q := QueueOf(c, write);
    var slot := Lookup(q.entry, 0, 0);
    var q' := if slot < |q.entry| then q.(entry := q.entry[slot := p], occupancy := q.occupancy + 1) else q;
    WithQueue(c, write, UpdateScheduleCycle(q'))
  }

  /** `add_rq`: before the warm-up a read is answered at once; a read of a queued write is
      forwarded; a read of a queued read is merged; otherwise it takes the first empty slot, or is
      dropped when there is none. */
  function AddRead(c: Channel, p: Packet, warm: bool): (a: Accepted)
    requires |c.banks| == BANKS
    ensures |a.channel.banks| == BANKS
  {
    if !warm then Accepted(c, -1, [p]) else
    var w := Lookup(c.wq.entry, p.address, 0);
    if w < |c.wq.entry| then Accepted(c, -1, [p.(data := c.wq.entry[w].data)]) else
    var r := Lookup(c.rq.entry, p.address, 0);
    if r < |c.rq.entry| then Accepted(c, r, []) else
    Accepted(Insert(c, false, p), -1, [])
  }

  /** `add_wq`: dropped before the warm-up, merged with a queued write, or inserted. */
  function AddWrite(c: Channel, p: Packet, warm: bool): (a: Accepted)
    requires |c.banks| == BANKS
    ensures |a.channel.banks| == BANKS
  {
    if !warm then Accepted(c, -1, []) else
    var w := Lookup(c.wq.entry, p.address, 0);
    if w < |c.wq.entry| then Accepted(c, w, []) else
    Accepted(Insert(c, true, p), -1, [])
  }
}
