/** The register dependency scan over the circular reorder buffer.

    The scan walks slots downwards from the instruction before the current one to the head, wrapping
    past slot 0, and is proved to find the links of module Registers whatever the window's position. */
module RegisterRing {
  import opened Common
  import opened CoreConfig
  import opened Registers

  /** Looking one instruction further back. */
  lemma {:induction false} ProducerBack(s: seq<Entry>, low: nat, i: nat, register: nat)
    requires low < i <= |s|
    ensures Producer(s, low, i, register) ==
      if Producer(s, low + 1, i, register).Some? then Producer(s, low + 1, i, register)
      else if s[low].executed != Completed && Writes(s[low], register) then Some(low) else None
  {
    if low + 1 < i {
      ProducerBack(s, low, i - 1, register);
    }
  }

  /** A link as the scan leaves it: the slot of the producer. */
  function SlotOf(p: Option<nat>): Option<nat> {
    if p.Some? then Some(Slot(p.value)) else None
  }

  // ----- The dependency scan ----------------------------------------------------------------

  /** A slot of the buffer, as far as register dependencies go. */
  datatype RobEntry = RobEntry(fetched: bool, sources: seq<nat>, dests: seq<nat>, memory: bool, scheduled: Status,
                               executed: Status, ready: bool, waits: int, checked: seq<bool>)

  const EMPTY: RobEntry :=
    RobEntry(false, [0, 0, 0, 0], [], false, Idle, Idle, false, 0, [false, false, false, false])

  /** The slots that wait for an instruction: all of them, and those with a given source waiting. */
  datatype Row = Row(all: set<nat>, sources: seq<set<nat>>)

  const NO_WAITERS: Row := Row({}, [{}, {}, {}, {}])

  /** The link of source j of instruction i, looking back as far as instruction low, as a slot. */
  ghost function LinkBack(s: seq<Entry>, low: nat, i: nat, j: nat): Option<nat>
    requires i < |s| && j < SOURCES && |s[i].sources| == SOURCES
  {
    if s[i].sources[j] == 0 then None else SlotOf(Producer(s, low, i, s[i].sources[j]))
  }

  /** What one older instruction makes of the link of one source. */
  function NextLink(link: Option<nat>, register: nat, dests: seq<nat>, prior: nat): Option<nat> {
    if link.None? && register != 0 && register in dests then Some(prior) else link
  }

  function NextLinkOf(link: Option<nat>, register: nat, e: RobEntry, prior: nat): Option<nat> {
    if e.executed == Completed then link else NextLink(link, register, e.dests, prior)
  }

  /** Looking at one more instruction brings the link of a source up to date. */
  lemma LinkStep(s: seq<Entry>, n: nat, i: nat, j: nat, e: RobEntry)
    requires 0 < n <= i < |s| && j < SOURCES && |s[i].sources| == SOURCES
    requires e.dests == s[n - 1].dests && e.executed == s[n - 1].executed
    ensures LinkBack(s, n - 1, i, j) == NextLinkOf(LinkBack(s, n, i, j), s[i].sources[j], e, Slot(n - 1))
  {
    if s[i].sources[j] != 0 {
      ProducerBack(s, n - 1, i, s[i].sources[j]);
    }
  }

  function Count(links: seq<Option<nat>>): nat
    requires |links| == SOURCES
  {
    One(links[0].Some?) + One(links[1].Some?) + One(links[2].Some?) + One(links[3].Some?)
  }

  ghost predicate Shaped(e: seq<RobEntry>, d: seq<Row>, current: nat) {
    && current < |e| == |d| && |e[current].sources| == SOURCES
    && forall k :: 0 <= k < |d| ==> |d[k].sources| == SOURCES
  }

  function LinkedEntry(e: RobEntry, links: seq<Option<nat>>): RobEntry
    requires |links| == SOURCES
  {
    e.(checked := [links[0].Some?, links[1].Some?, links[2].Some?, links[3].Some?], waits := e.waits + Count(links),
       ready := e.ready && Count(links) == 0)
  }

  function LinkedEntries(e: seq<RobEntry>, current: nat, links: seq<Option<nat>>): seq<RobEntry>
    requires current < |e| && |links| == SOURCES
  {
    e[current := LinkedEntry(e[current], links)]
  }

  /** The row of slot k once `current` has these links. */
  function LinkedRow(row: Row, k: nat, current: nat, links: seq<Option<nat>>): (row': Row)
    requires |row.sources| == SOURCES == |links|
    ensures |row'.sources| == SOURCES
  {
    Row(if Some(k) in links then row.all + {current} else row.all,
        seq(SOURCES, j requires 0 <= j < SOURCES =>
          if links[j] == Some(k) then row.sources[j] + {current} else row.sources[j]))
  }

  function LinkedRows(d: seq<Row>, current: nat, links: seq<Option<nat>>): (d': seq<Row>)
    requires |links| == SOURCES && forall k :: 0 <= k < |d| ==> |d[k].sources| == SOURCES
    ensures |d'| == |d|
  {
    seq(|d|, k requires 0 <= k < |d| => LinkedRow(d[k], k, current, links))
  }

  /** The row with `current` added for source j. */
  function WithWaiter(row: Row, j: nat, current: nat): Row
    requires j < |row.sources|
  {
    Row(row.all + {current}, row.sources[j := row.sources[j] + {current}])
  }

  /** One more link changes one row and the current entry. */
  lemma OneMoreLink(e: seq<RobEntry>, d: seq<Row>, current: nat, links: seq<Option<nat>>, j: nat, prior: nat)
    requires Shaped(e, d, current) && |links| == SOURCES && j < SOURCES && links[j].None? && prior < |d|
    ensures var links' := links[j := Some(prior)];
      var row := LinkedRows(d, current, links)[prior];
      && LinkedRows(d, current, links') == LinkedRows(d, current, links)[prior := WithWaiter(row, j, current)]
      && LinkedEntry(e[current], links') ==
           var was := LinkedEntry(e[current], links);
           was.(ready := false, waits := was.waits + 1, checked := was.checked[j := true])
  {
    var links' := links[j := Some(prior)];
    var row := LinkedRows(d, current, links)[prior];
    forall k | 0 <= k < |d|
      ensures LinkedRow(d[k], k, current, links') ==
        if k == prior then WithWaiter(row, j, current) else LinkedRow(d[k], k, current, links)
    {
      assert forall l :: 0 <= l < SOURCES && l != j ==> links'[l] == links[l];
      assert links'[j] == Some(prior);
      assert Some(k) in links' <==> k == prior || Some(k) in links;
    }
  }

  /** The slots of the instructions first .. i hold them. */
  ghost predicate Window(e: seq<RobEntry>, s: seq<Entry>, first: nat, i: nat) {
    && |e| == ROB_SIZE && first <= i < |s| && i < first + ROB_SIZE && |s[i].sources| == SOURCES
    && forall k :: first <= k <= i ==>
         e[Slot(k)].sources == s[k].sources && e[Slot(k)].dests == s[k].dests && e[Slot(k)].executed == s[k].executed
  }

  lemma WindowAt(e: seq<RobEntry>, s: seq<Entry>, first: nat, i: nat, k: nat)
    requires Window(e, s, first, i) && first <= k <= i
    ensures e[Slot(k)].sources == s[k].sources && e[Slot(k)].dests == s[k].dests && e[Slot(k)].executed == s[k].executed
    ensures e[Slot(i)].sources == s[i].sources
  {}

  class ReorderBuffer {
    const entry: array<RobEntry>
    /** For each slot, who waits for it. */
    const dependents: array<Row>
    var head: nat

    constructor ()
      ensures fresh(entry) && fresh(dependents) && head == 0
      ensures entry[..] == seq(ROB_SIZE, k => EMPTY) && dependents[..] == seq(ROB_SIZE, k => NO_WAITERS)
    {
      entry := new RobEntry[ROB_SIZE](k => EMPTY);
      dependents := new Row[ROB_SIZE](k => NO_WAITERS);
      head := 0;
    }

    /** Fill or clear a slot: nobody waits for it. */
    method Put(k: nat, e: RobEntry)
      requires k < entry.Length == dependents.Length
      modifies entry, dependents
      ensures entry[..] == old(entry[..])[k := e] && dependents[..] == old(dependents[..])[k := NO_WAITERS]
    {
      entry[k] := e;
      dependents[k] := NO_WAITERS;
    }

    method Update(k: nat, e: RobEntry)
      requires k < entry.Length
      modifies entry
      ensures entry[..] == old(entry[..])[k := e]
    {
      entry[k] := e;
    }

    /** The buffer after the links found so far for the instruction in slot `current`, starting from e0
        and d0. */
    ghost predicate Linked(current: nat, links: seq<Option<nat>>, e0: seq<RobEntry>, d0: seq<Row>)
      reads entry, dependents
    {
      && Shaped(e0, d0, current) && |links| == SOURCES
      && entry[..] == LinkedEntries(e0, current, links) && dependents[..] == LinkedRows(d0, current, links)
    }

    /** `reg_RAW_dependency`: link the source to this older instruction if it writes the register. */
    method RegRawDependency(prior: nat, current: nat, j: nat)
      requires prior < entry.Length && current < entry.Length == dependents.Length && prior != current && j < SOURCES
      requires |dependents[prior].sources| == SOURCES && |entry[current].checked| == SOURCES
      requires |entry[current].sources| == SOURCES
      requires entry[current].sources[j] != 0
      modifies entry, dependents
      ensures var e := old(entry[current]);
        if e.sources[j] in old(entry[prior].dests) then
          && entry[..] == old(entry[..])[current := e.(ready := false, waits := e.waits + 1,
                                                       checked := e.checked[j := true])]
          && dependents[..] == old(dependents[..])[prior := WithWaiter(old(dependents[prior]), j, current)]
        else entry[..] == old(entry[..]) && dependents[..] == old(dependents[..])
    {
      var i := 0;
      var dests := entry[prior].dests;
      var r := entry[current].sources[j];
      while i < |dests|
        invariant 0 <= i <= |dests| && r !in dests[..i]
        invariant entry[..] == old(entry[..]) && dependents[..] == old(dependents[..])
      {
        if dests[i] != 0 && dests[i] == r {
          dependents[prior] := dependents[prior].(all := dependents[prior].all + {current});
          dependents[prior] := dependents[prior].(sources :=
            dependents[prior].sources[j := dependents[prior].sources[j] + {current}]);
          entry[current] := entry[current].(ready := false, waits := entry[current].waits + 1);
          entry[current] := entry[current].(checked := entry[current].checked[j := true]);
          return;
        }
        i := i + 1;
      }
    }

    /** One source of the current instruction looks at one older instruction. */
    method CheckSource(prior: nat, current: nat, j: nat, ghost links: seq<Option<nat>>, ghost e0: seq<RobEntry>,
                       ghost d0: seq<Row>)
      requires Linked(current, links, e0, d0) && prior < entry.Length && prior != current && j < SOURCES
      modifies entry, dependents
      ensures Linked(current, links[j := NextLink(links[j], e0[current].sources[j], e0[prior].dests, prior)], e0, d0)
    {
      assert entry[current] == LinkedEntry(e0[current], links) && entry[prior] == e0[prior];
      assert dependents[prior] == LinkedRow(d0[prior], prior, current, links);
      assert links[j := links[j]] == links;
      if links[j].None? {
        OneMoreLink(e0, d0, current, links, j, prior);
      }
      if entry[current].sources[j] != 0 && !entry[current].checked[j] {
        RegRawDependency(prior, current, j);
      }
    }

    /** All sources of the current instruction look at one older instruction. */
    method CheckPrior(prior: nat, current: nat, ghost links: seq<Option<nat>>, ghost e0: seq<RobEntry>,
                      ghost d0: seq<Row>) returns (ghost links': seq<Option<nat>>)
      requires Linked(current, links, e0, d0) && prior < entry.Length && prior != current
      modifies entry, dependents
      ensures Linked(current, links', e0, d0)
      ensures |links'| == SOURCES && forall j :: 0 <= j < SOURCES ==>
        links'[j] == NextLinkOf(links[j], e0[current].sources[j], e0[prior], prior)
    {
      links' := links;
      assert entry[prior] == e0[prior];
      if entry[prior].executed != Completed {
        var j := 0;
        while j < SOURCES
          invariant 0 <= j <= SOURCES && Linked(current, links', e0, d0)
          invariant forall l :: 0 <= l < SOURCES ==>
            links'[l] == if l < j then NextLink(links[l], e0[current].sources[l], e0[prior].dests, prior) else links[l]
        {
          CheckSource(prior, current, j, links', e0, d0);
          links' := links'[j := NextLink(links'[j], e0[current].sources[j], e0[prior].dests, prior)];
          j := j + 1;
        }
      }
    }

    /** The links found so far are those of looking back as far as instruction n. */
    ghost predicate FoundBackTo(s: seq<Entry>, n: nat, i: nat, links: seq<Option<nat>>)
      requires i < |s| && |s[i].sources| == SOURCES
    {
      |links| == SOURCES && forall j :: 0 <= j < SOURCES ==> links[j] == LinkBack(s, n, i, j)
    }

    /** Visit instruction n - 1, which is in slot `prior`. */
    method Visit(prior: nat, current: nat, ghost s: seq<Entry>, ghost n: nat, ghost i: nat,
                 ghost links: seq<Option<nat>>, ghost e0: seq<RobEntry>, ghost d0: seq<Row>)
      returns (ghost links': seq<Option<nat>>)
      requires Linked(current, links, e0, d0) && 0 < n <= i < |s| && i < n - 1 + ROB_SIZE
      requires prior == Slot(n - 1) < entry.Length && current == Slot(i)
      requires |s[i].sources| == SOURCES && e0[current].sources == s[i].sources
      requires e0[prior].dests == s[n - 1].dests && e0[prior].executed == s[n - 1].executed
      requires FoundBackTo(s, n, i, links)
      modifies entry, dependents
      ensures Linked(current, links', e0, d0) && FoundBackTo(s, n - 1, i, links')
    {
      SlotApart(n - 1, i);
      links' := CheckPrior(prior, current, links, e0, d0);
      forall j | 0 <= j < SOURCES ensures links'[j] == LinkBack(s, n - 1, i, j) {
        LinkStep(s, n, i, j, e0[prior]);
      }
    }

    /** Visit the slots from `high` down to `low`, which hold consecutive instructions. */
    method ScanDown(high: nat, low: nat, current: nat, ghost s: seq<Entry>, ghost first: nat, ghost m: nat,
                    ghost n: nat, ghost i: nat, ghost links: seq<Option<nat>>, ghost e0: seq<RobEntry>,
                    ghost d0: seq<Row>)
      returns (ghost links': seq<Option<nat>>)
      requires Window(e0, s, first, i) && current == Slot(i) && low <= high < ROB_SIZE
      requires first <= m < n <= i && n - m == high - low + 1 && high == Slot(n - 1)
      requires Linked(current, links, e0, d0) && FoundBackTo(s, n, i, links)
      modifies entry, dependents
      ensures Linked(current, links', e0, d0) && FoundBackTo(s, m, i, links')
    {
      links' := links;
      var k: int := high;
      ghost var at := n;
      while k >= low
        invariant low - 1 <= k <= high && m <= at <= n && at - m == k - low + 1 && (k >= low ==> k == Slot(at - 1))
        invariant Linked(current, links', e0, d0) && FoundBackTo(s, at, i, links')
      {
        WindowAt(e0, s, first, i, at - 1);
        links' := Visit(k, current, s, at, i, links', e0, d0);
        at := at - 1;
        if k > low {
          SlotNext(at);
        }
        k := k - 1;
      }
    }

    /** `reg_dependency`: link every source of the instruction in slot `current` to the youngest older
        uncompleted writer of its register, wherever the window lies on the ring. */
    method RegDependency(current: nat, ghost s: seq<Entry>, ghost first: nat, ghost i: nat)
      returns (ghost links: seq<Option<nat>>)
      requires Window(entry[..], s, first, i) && head == Slot(first) && current == Slot(i)
      requires Linked(current, NO_LINKS, entry[..], dependents[..])
      modifies entry, dependents
      ensures Linked(current, links, old(entry[..]), old(dependents[..])) && FoundBackTo(s, first, i, links)
    {
      ghost var e0, d0 := entry[..], dependents[..];
      links := NO_LINKS;
      var prior: int := current - 1;
      if prior < 0 {
        prior := ROB_SIZE - 1;
      }
      if current != head {
        Stretch(first, i);
        if head <= prior {
          links := ScanDown(prior, head, current, s, first, first, i, i, links, e0, d0);
        } else {
          links := ScanDown(prior, 0, current, s, first, i - (prior + 1), i, i, links, e0, d0);
          links := ScanDown(ROB_SIZE - 1, head, current, s, first, first, i - (prior + 1), i, links, e0, d0);
        }
      } else {
        SameSlot(first, i);
      }
    }
  }
}
