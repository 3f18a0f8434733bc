/** How long the DRAM controller takes over a request: which latency it gets, which rows are open afterwards, and when
    its data crosses the bus. */
module DramTiming {
  import opened Dram
  import opened DramSafety
  import opened DramRuns
  import opened DramArrivals

  // ----- Addresses --------------------------------------------------------------------------

  /** Bank, column and row are read from an address as they were put into it. */
  lemma DecodeRoundTrip(row: nat, column: nat, bank: nat)
    requires row < ROWS && column < COLUMNS && bank < BANKS
    ensures var address := (row * COLUMNS + column) * BANKS + bank;
      Bank(address) == bank && Row(address) == row
  {
    var address := (row * COLUMNS + column) * BANKS + bank;
    assert address / (BANKS * COLUMNS) == row;
  }

  /** No packet is in the row that stands for a closed one. */
  lemma ClosedRow(address: nat)
    ensures Row(address) != UINT32_MAX
  {}

  // ----- Service ----------------------------------------------------------------------------

  /** The request that the scheduler takes into service, and the bank that works for it, become due after a column
      access if the bank had its row open, and after precharge, activation and column access otherwise; and that row is
      open afterwards. */
  lemma ServiceTimes(c: Channel, now: nat, t: Timing, i: nat)
    requires Inv(c, t) && i < |QueueOf(c, c.writeMode).entry| && !QueueOf(c, c.writeMode).entry[i].scheduled
    requires QueueOf(Schedule(c, c.writeMode, now, t), c.writeMode).entry[i].scheduled
    ensures var c' := Schedule(c, c.writeMode, now, t);
      var p, p' := QueueOf(c, c.writeMode).entry[i], QueueOf(c', c.writeMode).entry[i];
      var b := Bank(p.address);
      var due := now + if c.banks[b].openRow == Row(p.address) then t.tCAS else t.tRP + t.tRCD + t.tCAS;
      && p'.eventCycle == due && c'.banks[b].cycleAvailable == due && c'.banks[b].openRow == Row(p.address)
      && c'.banks[b].working && c'.banks[b].requestIndex == i
  {
    var q := QueueOf(c, c.writeMode);
    var hit, any := Find(q.entry, c.banks, RowHit), Find(q.entry, c.banks, Eligible);
    EarliestIsLeast(q.entry, c.banks, RowHit, |q.entry|);
    EarliestIsLeast(q.entry, c.banks, Eligible, |q.entry|);
  }

  /** Nothing else changes: the other requests, the other banks and the bus stay as they are. */
  lemma ServiceAlone(c: Channel, now: nat, t: Timing, i: nat, j: nat, b: nat)
    requires Inv(c, t) && i < |QueueOf(c, c.writeMode).entry| && !QueueOf(c, c.writeMode).entry[i].scheduled
    requires QueueOf(Schedule(c, c.writeMode, now, t), c.writeMode).entry[i].scheduled
    ensures var c', write := Schedule(c, c.writeMode, now, t), c.writeMode;
      && (j < |QueueOf(c, write).entry| && j != i ==> QueueOf(c', write).entry[j] == QueueOf(c, write).entry[j])
      && (b < BANKS && b != Bank(QueueOf(c, write).entry[i].address) ==> c'.banks[b] == c.banks[b])
      && QueueOf(c', !write) == QueueOf(c, !write) && c'.busAvailable == c.busAvailable && c'.writeMode == write
  {}

  /** The controller schedules only when some waiting request is due, and serves only the oldest in service, when that
      is. */
  lemma ActsWhenDue(c: Channel, now: nat, t: Timing)
    requires Inv(c, t) && now < UINT64_MAX
    ensures var e := QueueOf(c, c.writeMode).entry;
      TrySchedule(c, now, t) != c ==>
        exists j :: 0 <= j < |e| && Wanted(e[j], ANY_BANKS, Waiting) && e[j].eventCycle <= now
    ensures var q := QueueOf(c, c.writeMode);
      TryProcess(c, now, t) != (c, []) ==>
        && Oldest(q.entry, ANY_BANKS, InService, q.processIndex) && q.entry[q.processIndex].eventCycle <= now
  {
    var q := QueueOf(c, c.writeMode);
    EarliestIsLeast(q.entry, ANY_BANKS, Waiting, |q.entry|);
    ScanExact(q.entry, ANY_BANKS, InService, q.processIndex);
    EarliestIsLeast(q.entry, ANY_BANKS, InService, |q.entry|);
  }

  // ----- The bus ----------------------------------------------------------------------------

  /** The request at the head of service: while its bank works nothing happens; while the bus is busy its bank is put
      off until that is free; and then it leaves, its bank is free with the same row open, the bus is reserved for
      one transfer, and a read is handed back for when that ends. */
  lemma ProcessTimes(c: Channel, now: nat, t: Timing)
    requires Inv(c, t) && HasInService(c, c.writeMode)
    ensures var q := QueueOf(c, c.writeMode);
      var i := q.processIndex;
      var b := Bank(q.entry[i].address);
      var (c', returned) := Process(c, c.writeMode, now, t);
      var bank, bank' := c.banks[b], c'.banks[b];
      && bank'.openRow == bank.openRow
      && (bank.cycleAvailable > now ==> c' == c && returned == [])
      && (bank.cycleAvailable <= now < c.busAvailable ==>
            && returned == [] && bank'.cycleAvailable == c.busAvailable && bank'.working
            && c'.rq == c.rq && c'.wq == c.wq && c'.busAvailable == c.busAvailable)
      && (bank.cycleAvailable <= now && c.busAvailable <= now ==>
            && QueueOf(c', c.writeMode).entry[i] == EMPTY_PACKET && !bank'.working
            && c'.busAvailable == now + t.busReturn
            && returned == if c.writeMode then [] else [q.entry[i].(eventCycle := now + t.busReturn)])
      && forall a :: 0 <= a < BANKS && a != b ==> c'.banks[a] == c.banks[a]
  {}

  // ----- Resets -----------------------------------------------------------------------------

  /** The row that a bank has open once the first n entries have been reset. */
  function RowAfter(c: Channel, write: bool, n: nat, now: nat, t: Timing, b: nat): nat
    requires |c.banks| == BANKS && b < BANKS
  {
    var bank, e := c.banks[b], QueueOf(c, write).entry;
    if !(bank.working && 0 <= bank.requestIndex < n && bank.requestIndex < |e|) then bank.openRow
    else if bank.cycleAvailable <= now + t.tCAS then Row(e[bank.requestIndex].address) else UINT32_MAX
  }

  /** A bank whose entry is still to come is as before. */
  ghost predicate RowsSoFar(c: Channel, c': Channel, write: bool, n: nat, now: nat, t: Timing) {
    && |c.banks| == BANKS == |c'.banks|
    && forall b :: 0 <= b < BANKS ==>
         && c'.banks[b].openRow == RowAfter(c, write, n, now, t, b)
         && if c.banks[b].working && 0 <= c.banks[b].requestIndex < n
            then !c'.banks[b].working && c'.banks[b].cycleAvailable == now else c'.banks[b] == c.banks[b]
  }

  lemma {:induction false} ResetFirstRows(c: Channel, write: bool, n: nat, now: nat, t: Timing)
    requires Owned(c, write, t) && Shape(c) && n <= |QueueOf(c, write).entry|
    ensures RowsSoFar(c, ResetFirst(c, write, n, now, t), write, n, now, t)
  {
    if n > 0 {
      var k := n - 1;
      ResetFirstRows(c, write, k, now, t);
      ResetFirstKeeps(c, write, k, now, t);
      ResetEntryRows(c, ResetFirst(c, write, k, now, t), write, k, n, now, t);
    }
  }

  lemma ResetEntryRows(c: Channel, c1: Channel, write: bool, k: nat, n: nat, now: nat, t: Timing)
    requires Owned(c, write, t) && n == k + 1 <= |QueueOf(c, write).entry| && |c1.banks| == BANKS
    requires RowsSoFar(c, c1, write, k, now, t) && ResetBetween(c, c1, write, 0, k, now)
    ensures RowsSoFar(c, ResetEntry(c1, write, k, now, t), write, n, now, t)
  {
    var e, c2 := QueueOf(c, write).entry, ResetEntry(c1, write, k, now, t);
    assert QueueOf(c1, write).entry[k] == e[k];
    forall b | 0 <= b < BANKS
      ensures c2.banks[b].openRow == RowAfter(c, write, n, now, t, b)
      ensures if c.banks[b].working && 0 <= c.banks[b].requestIndex < n
        then !c2.banks[b].working && c2.banks[b].cycleAvailable == now else c2.banks[b] == c.banks[b]
    {
      assert BankOk(c, write, t, b);
    }
  }

  /** After a reset a bank that did not work is as before; one that worked is free from now on, with the row of its
      request open if the column access had begun, that is, if its access was to end within a column access from now,
      and closed otherwise. */
  lemma ResetRows(c: Channel, write: bool, now: nat, t: Timing, b: nat)
    requires Owned(c, write, t) && Shape(c) && b < BANKS
    ensures var bank, bank' := c.banks[b], Reset(c, write, now, t).banks[b];
      if bank.working then !bank'.working && bank'.cycleAvailable == now else bank' == bank
    ensures var bank, e, row := c.banks[b], QueueOf(c, write).entry, Reset(c, write, now, t).banks[b].openRow;
      && (bank.working ==>
            0 <= bank.requestIndex < |e| &&
            row == if bank.cycleAvailable <= now + t.tCAS then Row(e[bank.requestIndex].address) else UINT32_MAX)
  {
    ResetFirstRows(c, write, |QueueOf(c, write).entry|, now, t);
    assert BankOk(c, write, t, b);
  }

  // ----- Modes ------------------------------------------------------------------------------

  /** Writes go on until there are none, or fewer than 48 while a read waits; reads until 56 writes wait, or some and
      no read. */
  lemma ModeRule(c: Channel, now: nat, t: Timing)
    requires Inv(c, t)
    ensures var r, w := c.rq.occupancy, c.wq.occupancy;
      SwitchMode(c, now, t).writeMode <==>
        if c.writeMode then w > 0 && (r == 0 || w >= 48) else w >= 56 || (r == 0 && w > 0)
  {
    SwitchKeeps(c, now, t);
  }

  // ----- Arrivals ---------------------------------------------------------------------------

  /** Which arrivals merge with a waiting request of their address, whose index they get back; all others get -1. */
  lemma MergedIndex(c: Channel, p: Packet, warm: bool)
    requires |c.banks| == BANKS
    ensures var a := AddRead(c, p, warm);
      if warm && !Holds(c.wq, p.address) && Holds(c.rq, p.address)
        then 0 <= a.index < |c.rq.entry| && c.rq.entry[a.index].address == p.address && a.channel == c
        else a.index == -1
    ensures var a := AddWrite(c, p, warm);
      if warm && Holds(c.wq, p.address)
        then 0 <= a.index < |c.wq.entry| && c.wq.entry[a.index].address == p.address && a.channel == c
        else a.index == -1
  {
    LookupHolds(c.rq, p.address);
    LookupHolds(c.wq, p.address);
  }
}
