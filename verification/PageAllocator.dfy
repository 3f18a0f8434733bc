/** The physical page allocator behind the page table walker.

    Virtual pages get physical pages at random, but in runs of adjacent pages where possible; when
    memory is full, the page of the lowest-numbered virtual page is taken over.  Main results: the
    page table and its inverse stay mutual inverses through both kinds of allocation, memory is never
    oversubscribed, the retry loop ends, and the unsigned run counter never stays wrapped. */
module PageAllocator {
  import opened Bits
  import opened Common

  const PAGE: nat := 4096
  const DRAW_END: nat := 0x10_0000_0000
  const LONGEST_RUN: nat := 512
  const ALL_ONES: nat := 0xF_FFFF_FFFF_FFFF

  /** The allocator's tables and counters. */
  datatype Memory = Memory(pageTable: map<nat, nat>, inverse: map<nat, nat>, used: nat,
                           previous: nat, adjacent: nat)

  const EMPTY := Memory(map[], map[], 0, 0, 0)

  /** What one request for a page may draw: page numbers until one is free, and the length of the next
      run of adjacent pages, as a power of two. */
  datatype Chance = Chance(draws: seq<nat>, log: nat)

  function Drawn(draws: seq<nat>): set<nat> {
    set d | d in draws
  }

  /** The generator keeps drawing: more different pages than can be taken, never page 0. */
  ghost predicate Rich(c: Chance, limit: nat) {
    && c.log < 10
    && (forall d :: d in c.draws ==> 0 < d < DRAW_END)
    && |Drawn(c.draws)| >= limit
  }

  // ----- One request ------------------------------------------------------------------------

  function RunLength(log: nat): (n: nat)
    requires log < 10
    ensures 0 < n <= LONGEST_RUN
  {
    [1, 2, 4, 8, 16, 32, 64, 128, 256, 512][log]
  }

  predicate Taken(m: Memory, page: nat) {
    page in m.inverse || page == ALL_ONES
  }

  /** The first draw from n on that is free; |draws| if there is none. */
  function FirstFree(m: Memory, draws: seq<nat>, n: nat): (i: nat)
    requires n <= |draws|
    ensures n <= i <= |draws| && (i < |draws| ==> !Taken(m, draws[i]))
    ensures forall j :: n <= j < i ==> Taken(m, draws[j])
    decreases |draws| - n
  {
    if n == |draws| || !Taken(m, draws[n]) then n else FirstFree(m, draws, n + 1)
  }

  /** The page given to a new virtual page: the one after the last, inside a run; else a free draw. */
  function NewPage(m: Memory, c: Chance): nat {
    if m.adjacent > 0 && !Taken(m, m.previous + 1) then m.previous + 1 else
    var i := FirstFree(m, c.draws, 0);
    if i < |c.draws| then c.draws[i] else 0
  }

  /** A new run starts when the last one was over or was interrupted. */
  predicate Fragmented(m: Memory) {
    m.adjacent == 0 || Taken(m, m.previous + 1)
  }

  function Fresh(m: Memory, vpage: nat, c: Chance): Memory
    requires c.log < 10
  {
    var page := NewPage(m, c);
    Memory(m.pageTable[vpage := page], m.inverse[page := vpage], m.used + 1, page,
           if Fragmented(m) then RunLength(c.log) else (m.adjacent - 1) % WORD)
  }

  /** Memory is full: the lowest-numbered virtual page gives its physical page away. */
  function Swap(m: Memory, vpage: nat): Memory
    requires m.pageTable != map[]
  {
    assert m.pageTable.Keys != {};
    var victim := Least(m.pageTable.Keys);
    var page := m.pageTable[victim];
    m.(pageTable := (m.pageTable - {victim})[vpage := page], inverse := m.inverse[page := vpage])
  }

  function Translate(m: Memory, vpage: nat, c: Chance, limit: nat): Memory
    requires c.log < 10
  {
    if vpage in m.pageTable then m
    else if m.used >= limit then (if m.pageTable == map[] then m else Swap(m, vpage))
    else Fresh(m, vpage, c)
  }

  // ----- The invariant ----------------------------------------------------------------------

  ghost predicate Inverses(m: Memory) {
    && (forall v :: v in m.pageTable ==> m.pageTable[v] in m.inverse && m.inverse[m.pageTable[v]] == v)
    && (forall p :: p in m.inverse ==> m.inverse[p] in m.pageTable && m.pageTable[m.inverse[p]] == p)
  }

  ghost predicate Inv(m: Memory, limit: nat) {
    && Inverses(m)
    && m.used == |m.pageTable| <= limit
    && m.adjacent <= LONGEST_RUN && m.previous + m.adjacent < DRAW_END + LONGEST_RUN
    && (forall p :: p in m.inverse ==> 0 < p < DRAW_END + LONGEST_RUN)
  }

  lemma {:induction false} InverseSize(m: Memory, vs: set<nat>)
    requires Inverses(m) && vs <= m.pageTable.Keys
    ensures |set v | v in vs :: m.pageTable[v]| == |vs|
  {
    var image := set v | v in vs :: m.pageTable[v];
    if vs == {} {
      assert image == {};
    } else {
      var x :| x in vs;
      InverseSize(m, vs - {x});
      var rest := set v | v in vs - {x} :: m.pageTable[v];
      assert image == rest + {m.pageTable[x]};
    }
  }

  lemma SameSize(m: Memory)
    requires Inverses(m)
    ensures |m.inverse.Keys| == |m.pageTable|
  {
    InverseSize(m, m.pageTable.Keys);
    var image := set v | v in m.pageTable.Keys :: m.pageTable[v];
    forall p ensures p in image <==> p in m.inverse.Keys {
      if p in m.inverse {
        assert m.inverse[p] in m.pageTable.Keys;
      }
    }
    assert image == m.inverse.Keys;
  }

  /** While memory is not full, a generator that keeps drawing reaches a free page: the retry loop
      ends. */
  lemma FreeFound(m: Memory, c: Chance, limit: nat)
    requires Inv(m, limit) && m.used < limit && Rich(c, limit)
    ensures FirstFree(m, c.draws, 0) < |c.draws|
  {
    SameSize(m);
    if FirstFree(m, c.draws, 0) == |c.draws| {
      forall d | d in Drawn(c.draws) ensures d in m.inverse.Keys {
        var i :| 0 <= i < |c.draws| && c.draws[i] == d;
      }
      SubsetSize(Drawn(c.draws), m.inverse.Keys);
    }
  }

  /** A new page is free, nonzero, and small enough for every shift that is made of it. */
  lemma NewPageFree(m: Memory, c: Chance, limit: nat)
    requires Inv(m, limit) && m.used < limit && Rich(c, limit)
    ensures var page := NewPage(m, c);
      && page !in m.inverse && page != ALL_ONES && 0 < page < DRAW_END + LONGEST_RUN
      && (if Fragmented(m) then page < DRAW_END else page + m.adjacent - 1 < DRAW_END + LONGEST_RUN)
  {
    FreeFound(m, c, limit);
    assert c.draws[FirstFree(m, c.draws, 0)] in c.draws;
  }

  /** A request keeps the tables mutual inverses and the counters right; the run counter ends
      unwrapped. */
  lemma TranslateKeeps(m: Memory, vpage: nat, c: Chance, limit: nat)
    requires Inv(m, limit) && Rich(c, limit) && limit > 0
    ensures Inv(Translate(m, vpage, c, limit), limit) && vpage in Translate(m, vpage, c, limit).pageTable
  {
    if vpage !in m.pageTable {
      if m.used < limit {
        NewPageFree(m, c, limit);
        FreshKeeps(m, vpage, c, limit);
      } else {
        SwapKeeps(m, vpage, limit);
      }
    }
  }

  lemma FreshKeeps(m: Memory, vpage: nat, c: Chance, limit: nat)
    requires Inv(m, limit) && m.used < limit && c.log < 10 && vpage !in m.pageTable
    requires var page := NewPage(m, c);
      && page !in m.inverse && 0 < page < DRAW_END + LONGEST_RUN
      && (if Fragmented(m) then page < DRAW_END else page + m.adjacent - 1 < DRAW_END + LONGEST_RUN)
    ensures Inv(Fresh(m, vpage, c), limit)
  {
    var m' := Fresh(m, vpage, c);
    InsertKeeps(m, vpage, NewPage(m, c), m');
    RunKeeps(m.adjacent, NewPage(m, c), Fragmented(m), RunLength(c.log), m'.adjacent);
  }

  lemma RunKeeps(adjacent: nat, page: nat, fragmented: bool, length: nat, adjacent': nat)
    requires adjacent <= LONGEST_RUN && 0 < length <= LONGEST_RUN && (!fragmented ==> adjacent > 0)
    requires if fragmented then page < DRAW_END else page + adjacent - 1 < DRAW_END + LONGEST_RUN
    requires adjacent' == if fragmented then length else (adjacent - 1) % WORD
    ensures adjacent' <= LONGEST_RUN && page + adjacent' < DRAW_END + LONGEST_RUN
  {}

  lemma InsertKeeps(m: Memory, vpage: nat, page: nat, m': Memory)
    requires Inverses(m) && vpage !in m.pageTable && page !in m.inverse
    requires m'.pageTable == m.pageTable[vpage := page] && m'.inverse == m.inverse[page := vpage]
    ensures Inverses(m') && |m'.pageTable| == |m.pageTable| + 1
  {
    assert m'.pageTable.Keys == m.pageTable.Keys + {vpage};
  }

  lemma SwapKeeps(m: Memory, vpage: nat, limit: nat)
    requires Inv(m, limit) && m.pageTable != map[] && vpage !in m.pageTable
    ensures Inv(Swap(m, vpage), limit)
  {
    var victim := Least(m.pageTable.Keys);
    assert m.pageTable.Keys != {};
    var m' := Swap(m, vpage);
    assert m'.pageTable.Keys == m.pageTable.Keys - {victim} + {vpage};
    assert m'.inverse.Keys == m.inverse.Keys;
  }

  /** Who loses a translation: nobody while there is memory, and then only the lowest-numbered page,
      whose physical page the newcomer gets. */
  lemma OthersKeepTheirs(m: Memory, vpage: nat, c: Chance, limit: nat, v: nat)
    requires Inv(m, limit) && Rich(c, limit) && limit > 0 && v != vpage
    ensures var m' := Translate(m, vpage, c, limit);
      var evicts := vpage !in m.pageTable && m.used >= limit;
      && (v in m'.pageTable <==> v in m.pageTable && !(evicts && v == Least(m.pageTable.Keys)))
      && (v in m'.pageTable ==> m'.pageTable[v] == m.pageTable[v])
      && (evicts ==>
            m.pageTable != map[] && vpage in m'.pageTable &&
            m'.pageTable[vpage] == m.pageTable[Least(m.pageTable.Keys)])
  {
    assert m.pageTable == map[] || m.pageTable.Keys != {};
  }

  /** How a new page is chosen while memory has room: inside a run the next one, if it is free; else the first free
      draw, which begins a run of two to the power drawn. */
  lemma AllocationRule(m: Memory, vpage: nat, c: Chance, limit: nat)
    requires Inv(m, limit) && Rich(c, limit) && m.used < limit && vpage !in m.pageTable
    ensures var m' := Translate(m, vpage, c, limit);
      && vpage in m'.pageTable && m'.previous == m'.pageTable[vpage]
      && if m.adjacent > 0 && m.previous + 1 !in m.inverse && m.previous + 1 != ALL_ONES
         then m'.previous == m.previous + 1 && m'.adjacent == m.adjacent - 1
         else
           && m'.adjacent == Pow2(c.log)
           && exists i :: 0 <= i < |c.draws| && m'.previous == c.draws[i] && m'.previous !in m.inverse
                && forall j :: 0 <= j < i ==> c.draws[j] in m.inverse || c.draws[j] == ALL_ONES
  {
    FreeFound(m, c, limit);
    PowersOfTwo(c.log);
  }

  lemma PowersOfTwo(log: nat)
    requires log < 10
    ensures RunLength(log) == Pow2(log)
  {
    assert Pow2(0) == 1 && Pow2(1) == 2 && Pow2(2) == 4 && Pow2(3) == 8 && Pow2(4) == 16;
    assert Pow2(5) == 32 && Pow2(6) == 64 && Pow2(7) == 128;
    assert Pow2(8) == 256;
    assert Pow2(9) == 512;
  }

  // ----- Whole runs -------------------------------------------------------------------------

  datatype Request = Request(vpage: nat, chance: Chance)

  ghost predicate RichRequests(rs: seq<Request>, limit: nat) {
    forall i :: 0 <= i < |rs| ==> Rich(rs[i].chance, limit)
  }

  function Run(rs: seq<Request>, limit: nat): Memory
    requires forall i :: 0 <= i < |rs| ==> rs[i].chance.log < 10
  {
    if rs == [] then EMPTY else
    Translate(Run(rs[..|rs| - 1], limit), rs[|rs| - 1].vpage, rs[|rs| - 1].chance, limit)
  }

  lemma {:induction false} ReachableInv(rs: seq<Request>, limit: nat)
    requires limit > 0 && RichRequests(rs, limit)
    ensures Inv(Run(rs, limit), limit)
  {
    if rs != [] {
      ReachableInv(rs[..|rs| - 1], limit);
      TranslateKeeps(Run(rs[..|rs| - 1], limit), rs[|rs| - 1].vpage, rs[|rs| - 1].chance, limit);
    }
  }

  // ----- The allocator as the program runs it -----------------------------------------------

  class Allocator {
    var pageTable: map<nat, nat>
    var inverseTable: map<nat, nat>
    var allocatedPages: nat
    var previousPage: nat
    var numAdjacentPage: nat
    const limit: nat

    constructor (limit: nat)
      requires limit > 0
      ensures View() == EMPTY && this.limit == limit && Inv(View(), limit)
    {
      pageTable, inverseTable := map[], map[];
      allocatedPages, previousPage, numAdjacentPage := 0, 0, 0;
      this.limit := limit;
    }

    ghost function View(): Memory
      reads this
    {
      Memory(pageTable, inverseTable, allocatedPages, previousPage, numAdjacentPage)
    }

    /** `va_to_pa_ptw`: the physical address of a virtual one, allocating its page if need be. */
    method VaToPa(va: nat, c: Chance) returns (pa: nat, pageSwap: bool)
      requires limit > 0 && Inv(View(), limit) && Rich(c, limit)
      modifies this
      ensures Inv(View(), limit) && View() == Translate(old(View()), va / PAGE, c, limit)
      ensures va / PAGE in pageTable && pa / PAGE == pageTable[va / PAGE] && pa % PAGE == va % PAGE && pa < WORD
      ensures pageSwap <==> va / PAGE !in old(pageTable) && old(allocatedPages) >= limit
    {
      var vpage := va / PAGE;
      pageSwap := false;
      TranslateKeeps(View(), vpage, c, limit);
      if vpage !in pageTable {
        if allocatedPages >= limit {
          assert pageTable != map[];
          pageSwap := true;
          Evict(vpage);
        } else {
          Allocate(vpage, c);
        }
      }
      var page := pageTable[vpage];
      assert page in inverseTable;
      pa := (page * PAGE) % WORD + va % PAGE;
    }

    method Evict(vpage: nat)
      requires pageTable != map[] && Inverses(View())
      modifies this
      ensures View() == Swap(old(View()), vpage)
    {
      var victim := Least(pageTable.Keys);
      assert pageTable.Keys != {};
      var mapped := pageTable[victim];
      pageTable := pageTable - {victim};
      pageTable := pageTable[vpage := mapped];
      assert mapped in inverseTable;
      inverseTable := inverseTable[mapped := vpage];
    }

    /** The page after the last, inside a run, or draws until one is free. */
    method PickPage(c: Chance) returns (page: nat, fragmented: bool)
      requires Inv(View(), limit) && allocatedPages < limit && Rich(c, limit)
      modifies this`previousPage
      ensures page == NewPage(old(View()), c) && fragmented == Fragmented(old(View()))
    {
      ghost var m := View();
      FreeFound(m, c, limit);
      fragmented := false;
      var next := 0;
      if numAdjacentPage > 0 {
        previousPage := previousPage + 1;
        page := previousPage;
      } else {
        page := c.draws[0];
        next := 1;
        fragmented := true;
      }
      while page in inverseTable || page == ALL_ONES
        invariant next <= |c.draws|
        invariant next == 0 ==> m.adjacent > 0 && page == m.previous + 1 && !fragmented
        invariant next > 0 ==> page == c.draws[next - 1] && fragmented && Fragmented(m)
        invariant next > 0 ==> FirstFree(m, c.draws, 0) == FirstFree(m, c.draws, next - 1)
        decreases |c.draws| - next
        modifies {}
      {
        if numAdjacentPage > 0 {
          fragmented := true;
        }
        page := c.draws[next];
        next := next + 1;
      }
    }

    method Allocate(vpage: nat, c: Chance)
      requires Inv(View(), limit) && allocatedPages < limit && Rich(c, limit)
      modifies this
      ensures View() == Fresh(old(View()), vpage, c)
    {
      var page, fragmented := PickPage(c);
      pageTable := pageTable[vpage := page];
      inverseTable := inverseTable[page := vpage];
      previousPage := page;
      numAdjacentPage := (numAdjacentPage - 1) % WORD;
      allocatedPages := allocatedPages + 1;
      if fragmented {
        numAdjacentPage := RunLength(c.log);
      }
    }
  }
}
