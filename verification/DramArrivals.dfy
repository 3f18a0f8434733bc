/** Which arrivals the DRAM controller loses, and which data it forwards.

    A full queue swallows an arrival without notice, and a write that meets an older one of its address in
    the queue leaves the old data there.  Here is exactly when, and a run for each. */
module DramArrivals {
  import opened Dram
  import opened DramSafety
  import opened DramRuns

  // ----- Lost arrivals ----------------------------------------------------------------------

  predicate Holds(q: Queue, address: nat) {
    exists i :: 0 <= i < |q.entry| && q.entry[i].address == address
  }

  lemma LookupHolds(q: Queue, address: nat)
    ensures Lookup(q.entry, address, 0) < |q.entry| <==> Holds(q, address)
  {}

  /** The read is not answered, and no read of its address is waiting. */
  predicate ReadLost(c: Channel, p: Packet, warm: bool)
    requires |c.banks| == BANKS
  {
    var a := AddRead(c, p, warm);
    a.returned == [] && !Holds(a.channel.rq, p.address)
  }

  /** No write of the address of this one is waiting. */
  predicate WriteLost(c: Channel, p: Packet, warm: bool)
    requires |c.banks| == BANKS
  {
    !Holds(AddWrite(c, p, warm).channel.wq, p.address)
  }

  /** A read is lost exactly when it comes after the warm-up, neither queue has its address and its queue is full. */
  lemma ReadLostExactly(c: Channel, p: Packet, warm: bool, t: Timing)
    requires Inv(c, t)
    ensures ReadLost(c, p, warm) <==>
      warm && !Holds(c.wq, p.address) && !Holds(c.rq, p.address) && c.rq.occupancy == RQ_SIZE
  {
    LookupHolds(c.wq, p.address);
    LookupHolds(c.rq, p.address);
    FullWhenNoSlot(c.rq, RQ_SIZE);
    InsertHolds(c, false, p);
  }

  /** A write is lost exactly when its queue does not have its address, and is full or the warm-up is not over. */
  lemma WriteLostExactly(c: Channel, p: Packet, warm: bool, t: Timing)
    requires Inv(c, t)
    ensures WriteLost(c, p, warm) <==> !Holds(c.wq, p.address) && (!warm || c.wq.occupancy == WQ_SIZE)
  {
    LookupHolds(c.wq, p.address);
    FullWhenNoSlot(c.wq, WQ_SIZE);
    InsertHolds(c, true, p);
  }

  /** Inserting a packet puts its address into the queue, unless there is no slot. */
  lemma InsertHolds(c: Channel, write: bool, p: Packet)
    requires |c.banks| == BANKS
    ensures var q, q' := QueueOf(c, write), QueueOf(Insert(c, write, p), write);
      Holds(q', p.address) <==> Holds(q, p.address) || Lookup(q.entry, 0, 0) < |q.entry|
  {
    var q, q' := QueueOf(c, write), QueueOf(Insert(c, write, p), write);
    var slot := Lookup(q.entry, 0, 0);
    if slot < |q.entry| {
      assert q'.entry[slot].address == p.address;
    }
  }

  lemma FullWhenNoSlot(q: Queue, size: nat)
    requires QueueOk(q, size)
    ensures Lookup(q.entry, 0, 0) == |q.entry| <==> q.occupancy == size
  {
    FullCount(q.entry, |q.entry|);
    assert q.entry[..|q.entry|] == q.entry;
  }

  lemma {:induction false} FullCount(e: seq<Packet>, n: nat)
    requires n <= |e|
    ensures |Full(e[..n])| <= n && (|Full(e[..n])| == n <==> forall i :: 0 <= i < n ==> e[i].address != 0)
  {
    if n == 0 {
      assert Full(e[..0]) == {};
    } else {
      FullCount(e, n - 1);
      assert Full(e[..n]) == Full(e[..n - 1]) + if e[n - 1].address != 0 then {n - 1} else {};
    }
  }

  /** Reads of the addresses 1 .. n, with no cycle in between. */
  function Burst(n: nat): (events: seq<Event>)
    ensures |events| == n
  {
    seq(n, i requires 0 <= i < n => Read(Numbered(i + 1), true))
  }

  function Numbered(address: nat): Packet {
    Packet(address, 0, 0, false, false, 0)
  }

  /** The first n slots of the read queue hold the addresses 1 .. n, and nothing else waits. */
  ghost predicate BurstHeld(c: Channel, n: nat) {
    && |c.banks| == BANKS && c.wq == GENESIS.channel.wq && |c.rq.entry| == RQ_SIZE
    && forall i :: 0 <= i < RQ_SIZE ==> c.rq.entry[i].address == if i < n then i + 1 else 0
  }

  lemma BurstStep(c: Channel, n: nat)
    requires 0 < n <= RQ_SIZE && BurstHeld(c, n - 1)
    ensures BurstHeld(AddRead(c, Numbered(n), true).channel, n)
  {
    NoWrites(c, n);
    var slot := Lookup(c.rq.entry, 0, 0);
    assert c.rq.entry[n - 1].address == 0 && slot == n - 1;
    assert Lookup(c.rq.entry, n, 0) == RQ_SIZE;
    InsertEntry(c, Numbered(n));
  }

  lemma InsertEntry(c: Channel, p: Packet)
    requires |c.banks| == BANKS && Lookup(c.rq.entry, 0, 0) < |c.rq.entry|
    ensures Insert(c, false, p).wq == c.wq
    ensures Insert(c, false, p).rq.entry == c.rq.entry[Lookup(c.rq.entry, 0, 0) := p]
  {}

  lemma {:induction false} AfterBurst(n: nat, t: Timing)
    requires n <= RQ_SIZE
    ensures BurstHeld(Run(Burst(n), t).channel, n)
  {
    if n > 0 {
      AfterBurst(n - 1, t);
      assert Burst(n)[..n - 1] == Burst(n - 1);
      BurstStep(Run(Burst(n - 1), t).channel, n);
    }
  }

  lemma NoWrites(c: Channel, address: nat)
    requires c.wq == GENESIS.channel.wq && address != 0
    ensures !Holds(c.wq, address) && Lookup(c.wq.entry, address, 0) == |c.wq.entry|
  {
    forall i | 0 <= i < |c.wq.entry| ensures c.wq.entry[i].address != address {
      StartEmpty(i);
    }
  }

  /** After a burst that fills the read queue, one more read is lost. */
  lemma BurstLosesRead(t: Timing)
    ensures ReadLost(Run(Burst(RQ_SIZE), t).channel, Numbered(RQ_SIZE + 1), true)
  {
    var c, p := Run(Burst(RQ_SIZE), t).channel, Numbered(RQ_SIZE + 1);
    AfterBurst(RQ_SIZE, t);
    NoWrites(c, p.address);
    assert forall i :: 0 <= i < RQ_SIZE ==> c.rq.entry[i].address == i + 1;
    assert Lookup(c.rq.entry, 0, 0) == RQ_SIZE && Lookup(c.rq.entry, p.address, 0) == RQ_SIZE;
    InsertHolds(c, false, p);
  }

  // ----- Forwarded data ---------------------------------------------------------------------

  /** What is waiting afterwards was waiting before, in the same slot and with the same data. */
  ghost predicate DataKept(e: seq<Packet>, e': seq<Packet>) {
    && |e'| == |e|
    && forall i :: 0 <= i < |e| && e'[i].address != 0 ==> e'[i].address == e[i].address && e'[i].data == e[i].data
  }

  lemma {:induction false} ResetFirstData(c: Channel, write: bool, n: nat, now: nat, t: Timing)
    requires |c.banks| == BANKS && n <= |QueueOf(c, write).entry|
    ensures DataKept(c.wq.entry, ResetFirst(c, write, n, now, t).wq.entry)
  {
    if n > 0 {
      ResetFirstData(c, write, n - 1, now, t);
    }
  }

  lemma SwitchData(c: Channel, now: nat, t: Timing)
    requires |c.banks| == BANKS
    ensures DataKept(c.wq.entry, SwitchMode(c, now, t).wq.entry)
  {
    var c' := c.(writeMode := !c.writeMode);
    ResetFirstData(c', c.writeMode, |QueueOf(c', c.writeMode).entry|, now, t);
  }

  lemma TryScheduleData(c: Channel, now: nat, t: Timing)
    requires |c.banks| == BANKS
    ensures DataKept(c.wq.entry, TrySchedule(c, now, t).wq.entry)
  {}

  lemma TryProcessData(c: Channel, now: nat, t: Timing)
    requires |c.banks| == BANKS
    ensures DataKept(c.wq.entry, TryProcess(c, now, t).0.wq.entry)
  {}

  lemma DataKeptTwice(e: seq<Packet>, e1: seq<Packet>, e2: seq<Packet>)
    requires DataKept(e, e1) && DataKept(e1, e2)
    ensures DataKept(e, e2)
  {}

  lemma OperateData(c: Channel, now: nat, t: Timing)
    requires |c.banks| == BANKS
    ensures DataKept(c.wq.entry, Operate(c, now, t).0.wq.entry)
  {
    var c1 := SwitchMode(c, now, t);
    var c2 := TrySchedule(c1, now, t);
    SwitchData(c, now, t);
    TryScheduleData(c1, now, t);
    TryProcessData(c2, now, t);
    DataKeptTwice(c.wq.entry, c1.wq.entry, c2.wq.entry);
    DataKeptTwice(c.wq.entry, c2.wq.entry, TryProcess(c2, now, t).0.wq.entry);
  }

  ghost function WriteQueue(events: seq<Event>, t: Timing): seq<Packet> {
    Run(events, t).channel.wq.entry
  }

  /** Event n wrote what slot i holds: the address was not queued before, and has been in the slot since. */
  ghost predicate WrittenBy(events: seq<Event>, t: Timing, i: nat, n: nat) {
    && n < |events| && events[n].Write? && events[n].warm && i < |WriteQueue(events, t)|
    && events[n].p.address == WriteQueue(events, t)[i].address && events[n].p.data == WriteQueue(events, t)[i].data
    && !Holds(Run(events[..n], t).channel.wq, events[n].p.address)
    && forall m :: n < m <= |events| ==> KeptAt(events, t, i, events[n].p, m)
  }

  ghost predicate KeptAt(events: seq<Event>, t: Timing, i: nat, p: Packet, m: nat) {
    && m <= |events| && i < |WriteQueue(events[..m], t)|
    && WriteQueue(events[..m], t)[i].address == p.address && WriteQueue(events[..m], t)[i].data == p.data
  }

  /** One event either leaves the slot its packet or fills it with a new write. */
  lemma SlotStep(w: World, e: Event, t: Timing, i: nat)
    requires |w.channel.banks| == BANKS
    ensures var entry, entry' := w.channel.wq.entry, Step(w, e, t).channel.wq.entry;
      && |entry'| == |entry|
      && (i < |entry| && entry'[i].address != 0 ==>
            || (entry'[i].address == entry[i].address && entry'[i].data == entry[i].data)
            || (e.Write? && e.warm && entry'[i] == e.p && !Holds(w.channel.wq, e.p.address)))
  {
    match e
    case Read(p, warm) => InsertOther(w.channel, p);
    case Write(p, warm) =>
      LookupHolds(w.channel.wq, p.address);
    case Cycle => OperateData(w.channel, w.now, t);
  }

  lemma InsertOther(c: Channel, p: Packet)
    requires |c.banks| == BANKS
    ensures Insert(c, false, p).wq == c.wq
  {}

  lemma StartEmpty(i: nat)
    requires i < |GENESIS.channel.wq.entry|
    ensures GENESIS.channel.wq.entry[i].address == 0
  {}

  /** The last event left the slot as it was. */
  ghost predicate Unchanged(events: seq<Event>, t: Timing, i: nat)
    requires events != []
  {
    var was, now := WriteQueue(events[..|events| - 1], t), WriteQueue(events, t);
    i < |was| && i < |now| && was[i].address == now[i].address && was[i].data == now[i].data
  }

  /** The last event wrote into the slot. */
  ghost predicate JustWritten(events: seq<Event>, t: Timing, i: nat)
    requires events != []
  {
    var e := events[|events| - 1];
    && i < |WriteQueue(events, t)| && e.Write? && e.warm && WriteQueue(events, t)[i] == e.p
    && !Holds(Run(events[..|events| - 1], t).channel.wq, e.p.address)
  }

  lemma LastEvent(events: seq<Event>, t: Timing, i: nat)
    requires events != [] && i < |WriteQueue(events, t)| && WriteQueue(events, t)[i].address != 0
    ensures Unchanged(events, t, i) || JustWritten(events, t, i)
  {
    SlotStep(Run(events[..|events| - 1], t), events[|events| - 1], t, i);
  }

  /** Whatever a slot of the write queue holds is the first write of its address since the slot was filled. */
  lemma {:induction false} SlotWritten(events: seq<Event>, t: Timing, i: nat) returns (n: nat)
    requires i < |WriteQueue(events, t)| && WriteQueue(events, t)[i].address != 0
    ensures WrittenBy(events, t, i, n)
  {
    if events == [] {
      StartEmpty(i);
      assert false;
    } else {
      LastEvent(events, t, i);
      if Unchanged(events, t, i) {
        n := SlotWritten(events[..|events| - 1], t, i);
        WrittenLater(events, t, i, n);
      } else {
        n := |events| - 1;
        WrittenNow(events, t, i);
      }
    }
  }

  lemma WrittenNow(events: seq<Event>, t: Timing, i: nat)
    requires events != [] && JustWritten(events, t, i)
    ensures WrittenBy(events, t, i, |events| - 1)
  {
    assert events[..|events|] == events;
    assert KeptAt(events, t, i, events[|events| - 1].p, |events|);
  }

  lemma WrittenLater(events: seq<Event>, t: Timing, i: nat, n: nat)
    requires events != [] && WrittenBy(events[..|events| - 1], t, i, n) && Unchanged(events, t, i)
    ensures WrittenBy(events, t, i, n)
  {
    var before := events[..|events| - 1];
    assert before[..n] == events[..n] && events[..|events|] == events;
    forall m | n < m <= |events| ensures KeptAt(events, t, i, events[n].p, m) {
      if m < |events| {
        assert KeptAt(before, t, i, before[n].p, m) && before[..m] == events[..m];
      }
    }
  }

  /** What a read that is forwarded would be answered with, if it came now. */
  function Forwarded(c: Channel, address: nat): (data: nat)
    requires Holds(c.wq, address)
  {
    LookupHolds(c.wq, address);
    c.wq.entry[Lookup(c.wq.entry, address, 0)].data
  }

  lemma ForwardedIsAnswer(c: Channel, p: Packet)
    requires |c.banks| == BANKS && Holds(c.wq, p.address)
    ensures AddRead(c, p, true) == Accepted(c, -1, [p.(data := Forwarded(c, p.address))])
  {
    LookupHolds(c.wq, p.address);
  }

  /** A read whose address is in the write queue is answered at once, with the data of the first write of the address
      since that came into the queue: no later write changes it. */
  lemma ForwardsFirst(events: seq<Event>, t: Timing, p: Packet) returns (i: nat, n: nat)
    requires p.address != 0 && Holds(Run(events, t).channel.wq, p.address)
    ensures WrittenBy(events, t, i, n) && events[n].p.address == p.address
    ensures var c := Run(events, t).channel;
      AddRead(c, p, true) == Accepted(c, -1, [p.(data := events[n].p.data)])
  {
    var c := Run(events, t).channel;
    LookupHolds(c.wq, p.address);
    i := Lookup(c.wq.entry, p.address, 0);
    n := SlotWritten(events, t, i);
    ForwardedIsAnswer(c, p);
  }

  /** Two writes to an address and then a read: the read gets the data of the first. */
  lemma ForwardsOldData(first: Packet, second: Packet, read: Packet, t: Timing)
    requires first.address == second.address == read.address != 0
    ensures var c := Run([Write(first, true)] + [Write(second, true)], t).channel;
      AddRead(c, read, true) == Accepted(c, -1, [read.(data := first.data)])
  {
    var one := [Write(first, true)];
    assert one[..0] == [] && (one + [Write(second, true)])[..1] == one;
    var c0 := GENESIS.channel;
    var c1 := AddWrite(c0, first, true).channel;
    assert Run(one, t).channel == c1;
    forall i | 0 <= i < |c0.wq.entry| ensures c0.wq.entry[i].address == 0 {
      StartEmpty(i);
    }
    assert Lookup(c0.wq.entry, 0, 0) == 0;
    assert c1.wq.entry[0] == first;
    assert AddWrite(c1, second, true).channel == c1;
    ForwardedIsAnswer(c1, read);
  }

  /** A write determines what later reads are forwarded exactly when the queue did not have its address and takes it,
      or had it with the same data. */
  lemma WriteTakesEffect(c: Channel, p: Packet, warm: bool, t: Timing)
    requires Inv(c, t) && p.address != 0
    ensures var c' := AddWrite(c, p, warm).channel;
      (Holds(c'.wq, p.address) && Forwarded(c', p.address) == p.data) <==>
        if Holds(c.wq, p.address) then Forwarded(c, p.address) == p.data else warm && c.wq.occupancy != WQ_SIZE
  {
    LookupHolds(c.wq, p.address);
    FullWhenNoSlot(c.wq, WQ_SIZE);
    InsertHolds(c, true, p);
    var c' := AddWrite(c, p, warm).channel;
    if !Holds(c.wq, p.address) && Holds(c'.wq, p.address) {
      LookupHolds(c'.wq, p.address);
      assert c'.wq.entry == c.wq.entry[Lookup(c.wq.entry, 0, 0) := p];
    }
  }
}
