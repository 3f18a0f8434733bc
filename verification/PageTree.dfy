/** The five-level page table tree and the page faults that grow it.

    Main results: a fault serviced from any level, with or without swaps, completes the walk for its
    address and changes nothing on any other path; and all pages in the tree, of tables and of data, have
    different physical addresses exactly as long as memory does not run out. */
module PageTree {
  import opened Bits
  import opened Common
  import opened PageAllocator

  const VA_SPACE: nat := 0x200_0000_0000_0000
  const ENTRIES: nat := 512
  /** Virtual page numbers of table pages start here, beyond those of data. */
  const TABLES_FROM: nat := 0xF_0000_00F0_0000
  const DATA_PAGES: nat := 0x2000_0000_0000

  // ----- Addresses and paths ----------------------------------------------------------------

  /** Bytes mapped by one entry of a table of this level. */
  function Span(level: nat): (s: nat)
    requires 1 <= level <= 6
    ensures s > 0
  {
    if level == 1 then PAGE else ENTRIES * Span(level - 1)
  }

  function Index(va: nat, level: nat): nat
    requires 1 <= level <= 6
  {
    va % VA_SPACE / Span(level)
  }

  function Offset(va: nat, level: nat): (o: nat)
    requires 1 <= level <= 5
    ensures o < ENTRIES
  {
    va % VA_SPACE / Span(level) % ENTRIES
  }

  /** The offsets that lead from the root to the page of this level; level 0 is the data page. */
  type Path = seq<nat>

  function PathTo(va: nat, level: nat): (path: Path)
    requires level <= 5
    ensures |path| == 5 - level
    decreases 5 - level, va
  {
    if level == 5 then [] else PathTo(va, level + 1) + [Offset(va, level + 1)]
  }

  lemma IndexSplit(va: nat, level: nat)
    requires 1 <= level <= 5
    ensures Index(va, level) == Index(va, level + 1) * ENTRIES + Offset(va, level)
  {
    var x, p := va % VA_SPACE, Span(level);
    var q := x / p;
    assert x == p * q + x % p;
    assert q == ENTRIES * (q / ENTRIES) + q % ENTRIES;
    assert p * q == (ENTRIES * p) * (q / ENTRIES) + p * (q % ENTRIES);
    Below(q % ENTRIES, ENTRIES, p, x % p);
    QuotientIs(x, ENTRIES * p, q / ENTRIES);
  }

  lemma Below(a: nat, n: nat, p: nat, r: nat)
    requires a < n && r < p
    ensures p * a + r < n * p
  {
    assert p * (a + 1) == p * a + p;
    Order(a + 1, n, p);
  }

  lemma Order(a: nat, b: nat, p: nat)
    requires a <= b
    ensures p * a <= p * b
  {}

  lemma SpanRoot()
    ensures Span(6) == VA_SPACE
  {
    assert Span(3) == PAGE * ENTRIES * ENTRIES;
  }

  /** The offset at a level is nine bits of the address: those from bit 12 on at level 1, and so on upwards. */
  lemma OffsetIs(va: nat, level: nat)
    requires va < VA_SPACE && 1 <= level <= 5
    ensures Offset(va, level) == va /
      (if level == 1 then 0x1000 else if level == 2 then 0x20_0000 else if level == 3 then 0x4000_0000
       else if level == 4 then 0x80_0000_0000 else 0x1_0000_0000_0000) % ENTRIES
  {
    QuotientIs(va, VA_SPACE, 0);
    assert Span(2) == 0x20_0000;
    assert Span(3) == 0x4000_0000;
    assert Span(4) == 0x80_0000_0000;
    assert Span(5) == 0x1_0000_0000_0000;
  }

  /** The path to the page below level k is what the index of that level determines, and nothing else. */
  lemma {:induction false} IndexIsPath(va: nat, va': nat, level: nat)
    requires 1 <= level <= 6
    ensures Index(va, level) == Index(va', level) <==> PathTo(va, level - 1) == PathTo(va', level - 1)
    decreases 6 - level
  {
    if level == 6 {
      SpanRoot();
      QuotientIs(va % VA_SPACE, VA_SPACE, 0);
      QuotientIs(va' % VA_SPACE, VA_SPACE, 0);
    } else {
      IndexIsPath(va, va', level + 1);
      IndexSplit(va, level);
      IndexSplit(va', level);
      SplitEqual(Index(va, level + 1), Offset(va, level), Index(va', level + 1), Offset(va', level));
      LastStep(va, va', level);
    }
  }

  lemma LastStep(va: nat, va': nat, level: nat)
    requires 1 <= level <= 5
    ensures PathTo(va, level - 1) == PathTo(va', level - 1) <==>
      PathTo(va, level) == PathTo(va', level) && Offset(va, level) == Offset(va', level)
  {
    var p, p' := PathTo(va, level - 1), PathTo(va', level - 1);
    assert p[..5 - level] == PathTo(va, level) && p'[..5 - level] == PathTo(va', level);
    assert p[5 - level] == Offset(va, level) && p'[5 - level] == Offset(va', level);
  }

  lemma SplitEqual(a: nat, r: nat, b: nat, s: nat)
    requires r < ENTRIES && s < ENTRIES
    ensures a * ENTRIES + r == b * ENTRIES + s <==> a == b && r == s
  {}

  lemma PageIndex(va: nat)
    requires va < VA_SPACE
    ensures Index(va, 1) == va / PAGE < DATA_PAGES
  {
    QuotientIs(va, VA_SPACE, 0);
  }

  lemma PageOf(va: nat)
    requires va < VA_SPACE
    ensures va / PAGE < DATA_PAGES && PathTo(va / PAGE * PAGE, 0) == PathTo(va, 0)
  {
    PageIndex(va);
    PageIndex(va / PAGE * PAGE);
    IndexIsPath(va / PAGE * PAGE, va, 1);
  }

  lemma {:induction false} PathPrefix(va: nat, level: nat, lower: nat)
    requires lower <= level <= 5
    ensures PathTo(va, lower)[..5 - level] == PathTo(va, level)
    decreases level - lower
  {
    if lower < level {
      PathPrefix(va, level, lower + 1);
      assert PathTo(va, lower)[..5 - level] == PathTo(va, lower + 1)[..5 - level];
    }
  }

  // ----- The tree and the fault handler -----------------------------------------------------

  /** The tree maps the path of every page in it to its physical page; the root has the empty path.
      nextTable is the virtual page number of the next table page. */
  datatype Kernel = Kernel(memory: Memory, tree: map<Path, nat>, nextTable: nat)

  const BOOT := Kernel(EMPTY, map[], TABLES_FROM)

  /** Map a page at a path: a table page, or the data page of an address. */
  function AddPage(k: Kernel, va: nat, level: nat, c: Chance, limit: nat): Kernel
    requires level <= 5 && c.log < 10
  {
    var vpage := if level == 0 then va / PAGE else k.nextTable;
    var memory := Translate(k.memory, vpage, c, limit);
    var page := if vpage in memory.pageTable then memory.pageTable[vpage] else 0;
    Kernel(memory, k.tree[PathTo(va, level) := page], if level == 0 then k.nextTable else k.nextTable + 1)
  }

  /** `handle_page_fault` when the page of this level is the first one missing. */
  function Fault(k: Kernel, va: nat, level: nat, cs: seq<Chance>, limit: nat): Kernel
    requires level <= 5 && |cs| > level && forall i :: 0 <= i < |cs| ==> cs[i].log < 10
    decreases level, va
  {
    var k' := AddPage(k, va, level, cs[level], limit);
    if level == 0 then k' else Fault(k', va, level - 1, cs, limit)
  }

  // ----- The invariant ----------------------------------------------------------------------

  ghost predicate Closed(tree: map<Path, nat>) {
    && (forall path :: path in tree ==> |path| <= 5)
    && (forall path, n: nat {:trigger path[..n]} :: path in tree && n <= |path| ==> path[..n] in tree)
  }

  ghost predicate Distinct(tree: map<Path, nat>) {
    forall p, q :: p in tree && q in tree && tree[p] == tree[q] ==> p == q
  }

  /** The page at a path is allocated, to a table page or to the data page that the path spells. */
  ghost predicate Owned(k: Kernel, path: Path) {
    && path in k.tree && k.tree[path] in k.memory.inverse
    && var v := k.memory.inverse[k.tree[path]];
      if |path| == 5 then v < DATA_PAGES && path == PathTo(v * PAGE, 0) else TABLES_FROM <= v
  }

  /** Every mapped virtual page is a table page or a data page of the tree. */
  ghost predicate Known(k: Kernel, v: nat) {
    v in k.memory.pageTable ==>
      && (if v < DATA_PAGES then PathTo(v * PAGE, 0) in k.tree else TABLES_FROM <= v < k.nextTable)
      && exists p :: p in k.tree && k.tree[p] == k.memory.pageTable[v]
  }

  ghost predicate KernelInv(k: Kernel, limit: nat) {
    && Inv(k.memory, limit) && Closed(k.tree) && Distinct(k.tree) && TABLES_FROM <= k.nextTable
    && (forall path :: path in k.tree ==> Owned(k, path))
    && (forall v :: Known(k, v))
  }

  /** The kernels that satisfy the invariant. */
  ghost function Kernels(limit: nat): iset<Kernel> {
    iset k: Kernel | KernelInv(k, limit)
  }

  ghost predicate AllRich(cs: seq<Chance>, limit: nat) {
    forall i :: 0 <= i < |cs| ==> Rich(cs[i], limit)
  }

  lemma BootInv(limit: nat)
    ensures KernelInv(BOOT, limit)
  {}

  lemma MemoryGrows(m: Memory, vpage: nat, c: Chance, limit: nat)
    requires Inv(m, limit) && Rich(c, limit) && m.used < limit && vpage !in m.pageTable
    ensures var m' := Translate(m, vpage, c, limit);
      && Inv(m', limit) && m'.used == m.used + 1 && vpage in m'.pageTable
      && var page := m'.pageTable[vpage];
        page !in m.inverse && m'.pageTable == m.pageTable[vpage := page] && m'.inverse == m.inverse[page := vpage]
  {
    TranslateKeeps(m, vpage, c, limit);
    NewPageFree(m, c, limit);
  }

  /** A page that is not mapped yet goes to a path that is not in the tree yet. */
  lemma TreeGrows(k: Kernel, k': Kernel, path: Path, vpage: nat, page: nat, limit: nat)
    requires KernelInv(k, limit) && Inv(k'.memory, limit) && vpage !in k.memory.pageTable && page !in k.memory.inverse
    requires k'.memory.pageTable == k.memory.pageTable[vpage := page]
    requires k'.memory.inverse == k.memory.inverse[page := vpage]
    requires path !in k.tree && k'.tree == k.tree[path := page] && |path| <= 5
    requires path != [] ==> path[..|path| - 1] in k.tree
    requires if |path| == 5 then vpage < DATA_PAGES && path == PathTo(vpage * PAGE, 0) else vpage == k.nextTable
    requires k'.nextTable == if |path| == 5 then k.nextTable else k.nextTable + 1
    ensures KernelInv(k', limit)
  {
    forall p | p in k'.tree ensures Owned(k', p) {
      if p != path {
        assert Owned(k, p);
      }
    }
    forall v ensures Known(k', v) {
      assert Known(k, v);
      if v == vpage {
        assert path in k'.tree && k'.tree[path] == page;
      } else if v in k.memory.pageTable {
        var p :| p in k.tree && k.tree[p] == k.memory.pageTable[v];
        assert p in k'.tree && k'.tree[p] == k'.memory.pageTable[v];
      }
    }
    forall p, n: nat {:trigger p[..n]} | p in k'.tree && n <= |p| ensures p[..n] in k'.tree {
      if p == path {
        assert path[..n] == if n == |path| then path else path[..|path| - 1][..n];
      }
    }
    forall p, q | p in k'.tree && q in k'.tree && k'.tree[p] == k'.tree[q] ensures p == q {
      assert p != path ==> Owned(k, p);
      assert q != path ==> Owned(k, q);
    }
  }

  /** The virtual page that a missing page of the tree stands for is not mapped. */
  lemma NewlyMapped(k: Kernel, va: nat, level: nat, limit: nat)
    requires KernelInv(k, limit) && va < VA_SPACE && level <= 5 && PathTo(va, level) !in k.tree
    ensures var vpage := if level == 0 then va / PAGE else k.nextTable;
      && vpage !in k.memory.pageTable
      && (level == 0 ==> vpage < DATA_PAGES && PathTo(va, level) == PathTo(vpage * PAGE, 0))
  {
    PageOf(va);
    assert Known(k, if level == 0 then va / PAGE else k.nextTable);
  }

  /** One new page at a free path whose parent is in the tree. */
  lemma AddPageKeeps(k: Kernel, va: nat, level: nat, c: Chance, limit: nat)
    requires KernelInv(k, limit) && va < VA_SPACE && level <= 5 && Rich(c, limit) && k.memory.used < limit
    requires PathTo(va, level) !in k.tree && (level == 5 || PathTo(va, level + 1) in k.tree)
    ensures var k' := AddPage(k, va, level, c, limit);
      && KernelInv(k', limit) && k'.memory.used == k.memory.used + 1 && PathTo(va, level) in k'.tree
      && k'.tree == k.tree[PathTo(va, level) := k'.tree[PathTo(va, level)]]
  {
    var vpage := if level == 0 then va / PAGE else k.nextTable;
    NewlyMapped(k, va, level, limit);
    MemoryGrows(k.memory, vpage, c, limit);
    var k' := AddPage(k, va, level, c, limit);
    if level < 5 {
      PathPrefix(va, level + 1, level);
    }
    TreeGrows(k, k', PathTo(va, level), vpage, k'.memory.pageTable[vpage], limit);
  }

  /** `level` is the first level at which the walk for an address ends early. */
  ghost predicate EndsAt(tree: map<Path, nat>, va: nat, level: nat) {
    forall l :: 0 <= l <= 5 ==> (PathTo(va, l) in tree <==> l > level)
  }

  /** From the first missing level down, every page of the walk is added and nothing else. */
  ghost predicate Serviced(tree: map<Path, nat>, tree': map<Path, nat>, va: nat, level: nat)
    requires level <= 5
  {
    && (forall l :: 0 <= l <= 5 ==> PathTo(va, l) in tree')
    && (forall path :: path in tree ==> path in tree' && tree'[path] == tree[path])
    && (forall path :: path in tree' && path !in tree ==> exists l: nat :: l <= level && path == PathTo(va, l))
  }

  lemma ServicedLast(tree: map<Path, nat>, page: nat, va: nat)
    requires PathTo(va, 0) !in tree && forall l :: 0 <= l <= 5 ==> PathTo(va, l) in tree[PathTo(va, 0) := page]
    ensures Serviced(tree, tree[PathTo(va, 0) := page], va, 0)
  {}

  lemma ServicedNext(tree: map<Path, nat>, page: nat, tree': map<Path, nat>, va: nat, level: nat)
    requires 0 < level <= 5 && PathTo(va, level) !in tree
    requires Serviced(tree[PathTo(va, level) := page], tree', va, level - 1)
    ensures Serviced(tree, tree', va, level)
  {
    var mid := tree[PathTo(va, level) := page];
    forall path | path in tree' && path !in tree ensures exists l: nat :: l <= level && path == PathTo(va, l) {
      if path !in mid {
        var l: nat :| l <= level - 1 && path == PathTo(va, l);
      }
    }
    forall path | path in tree ensures path in tree' && tree'[path] == tree[path] {
      assert path in mid && mid[path] == tree[path];
    }
  }

  lemma MissingNext(tree: map<Path, nat>, page: nat, va: nat, level: nat)
    requires level <= 5 && EndsAt(tree, va, level)
    ensures level > 0 ==> EndsAt(tree[PathTo(va, level) := page], va, level - 1)
    ensures level == 0 ==> forall l :: 0 <= l <= 5 ==> PathTo(va, l) in tree[PathTo(va, 0) := page]
  {
    forall l | 0 <= l <= 5 ensures PathTo(va, l) == PathTo(va, level) <==> l == level {
      assert |PathTo(va, l)| == 5 - l;
    }
  }

  lemma AddPageClosed(k: Kernel, va: nat, level: nat, c: Chance, limit: nat)
    requires Closed(k.tree) && level <= 5 && c.log < 10 && EndsAt(k.tree, va, level)
    ensures Closed(AddPage(k, va, level, c, limit).tree)
  {
    var path := PathTo(va, level);
    var k' := AddPage(k, va, level, c, limit);
    assert path !in k.tree && (level == 5 || PathTo(va, level + 1) in k.tree);
    if level < 5 {
      PathPrefix(va, level + 1, level);
    }
    forall p, n: nat {:trigger p[..n]} | p in k'.tree && n <= |p| ensures p[..n] in k'.tree {
      if p == path {
        assert path[..n] == if n == |path| then path else path[..|path| - 1][..n];
      }
    }
  }

  /** A fault serviced from any level completes the walk and keeps everything else, table pages and
      translations alike, present or absent; whether or not memory is full. */
  lemma {:induction false} FaultServices(k: Kernel, va: nat, level: nat, cs: seq<Chance>, limit: nat)
    requires Closed(k.tree) && level <= 5 && |cs| > level && EndsAt(k.tree, va, level)
    requires forall i :: 0 <= i < |cs| ==> cs[i].log < 10
    ensures var k' := Fault(k, va, level, cs, limit);
      Closed(k'.tree) && Serviced(k.tree, k'.tree, va, level)
    decreases level
  {
    AddPageClosed(k, va, level, cs[level], limit);
    assert PathTo(va, level) !in k.tree;
    var k' := AddPage(k, va, level, cs[level], limit);
    var page := k'.tree[PathTo(va, level)];
    MissingNext(k.tree, page, va, level);
    if level > 0 {
      FaultServices(k', va, level - 1, cs, limit);
      ServicedNext(k.tree, page, Fault(k, va, level, cs, limit).tree, va, level);
    } else {
      ServicedLast(k.tree, page, va);
    }
  }

  /** While memory has a page for each one added, the kernel stays sound. */
  lemma {:induction false} FaultKeeps(k: Kernel, va: nat, level: nat, cs: seq<Chance>, limit: nat)
    requires KernelInv(k, limit) && va < VA_SPACE && level <= 5 && |cs| > level && AllRich(cs, limit)
    requires k.memory.used + level < limit && EndsAt(k.tree, va, level)
    ensures var k' := Fault(k, va, level, cs, limit);
      KernelInv(k', limit) && k'.memory.used == k.memory.used + level + 1
    decreases level
  {
    assert PathTo(va, level) !in k.tree && (level == 5 || PathTo(va, level + 1) in k.tree);
    AddPageKeeps(k, va, level, cs[level], limit);
    var k' := AddPage(k, va, level, cs[level], limit);
    MissingNext(k.tree, k'.tree[PathTo(va, level)], va, level);
    if level > 0 {
      FaultKeeps(k', va, level - 1, cs, limit);
    }
  }

  /** The page allocator stays sound, whether or not it has to swap. */
  lemma {:induction false} FaultAllocates(k: Kernel, va: nat, level: nat, cs: seq<Chance>, limit: nat)
    requires Inv(k.memory, limit) && limit > 0 && level <= 5 && |cs| > level && AllRich(cs, limit)
    ensures Inv(Fault(k, va, level, cs, limit).memory, limit)
    decreases level
  {
    TranslateKeeps(k.memory, if level == 0 then va / PAGE else k.nextTable, cs[level], limit);
    if level > 0 {
      FaultAllocates(AddPage(k, va, level, cs[level], limit), va, level - 1, cs, limit);
    }
  }

  /** When memory is full, a new page of the tree takes over the physical page of another one. */
  lemma FullMemoryAliases(k: Kernel, va: nat, level: nat, c: Chance, limit: nat)
    requires KernelInv(k, limit) && va < VA_SPACE && level <= 5 && c.log < 10 && k.memory.used >= limit > 0
    requires PathTo(va, level) !in k.tree
    ensures !Distinct(AddPage(k, va, level, c, limit).tree)
  {
    NewlyMapped(k, va, level, limit);
    var m := k.memory;
    assert m.pageTable.Keys != {};
    var victim := Least(m.pageTable.Keys);
    assert Known(k, victim);
    var p :| p in k.tree && k.tree[p] == m.pageTable[victim];
    var k' := AddPage(k, va, level, c, limit);
    assert k'.tree[PathTo(va, level)] == k'.tree[p];
  }

  lemma FaultStaysAliased(k: Kernel, va: nat, level: nat, cs: seq<Chance>, limit: nat)
    requires Closed(k.tree) && level <= 5 && |cs| > level && EndsAt(k.tree, va, level)
    requires forall i :: 0 <= i < |cs| ==> cs[i].log < 10
    requires !Distinct(AddPage(k, va, level, cs[level], limit).tree)
    ensures !Distinct(Fault(k, va, level, cs, limit).tree)
  {
    var k' := AddPage(k, va, level, cs[level], limit);
    var p, q :| p in k'.tree && q in k'.tree && k'.tree[p] == k'.tree[q] && p != q;
    FaultGrowsNext(k, va, level, cs, limit);
  }

  lemma FaultGrowsNext(k: Kernel, va: nat, level: nat, cs: seq<Chance>, limit: nat)
    requires Closed(k.tree) && level <= 5 && |cs| > level && EndsAt(k.tree, va, level)
    requires forall i :: 0 <= i < |cs| ==> cs[i].log < 10
    ensures var k', k'' := AddPage(k, va, level, cs[level], limit), Fault(k, va, level, cs, limit);
      forall path :: path in k'.tree ==> path in k''.tree && k''.tree[path] == k'.tree[path]
  {
    if level > 0 {
      AddPageClosed(k, va, level, cs[level], limit);
      var k' := AddPage(k, va, level, cs[level], limit);
      MissingNext(k.tree, k'.tree[PathTo(va, level)], va, level);
      FaultServices(k', va, level - 1, cs, limit);
    }
  }

  /** The translation of a virtual page: where the walk ends. */
  function Translation(tree: map<Path, nat>, va: nat): (page: seq<nat>) {
    if PathTo(va, 0) in tree then [tree[PathTo(va, 0)]] else []
  }

  /** Other pages keep their translation, or the absence of one. */
  lemma OtherTranslations(k: Kernel, k': Kernel, va: nat, level: nat, other: nat)
    requires level <= 5 && Serviced(k.tree, k'.tree, va, level) && va < VA_SPACE && other < VA_SPACE
    requires other / PAGE != va / PAGE
    ensures Translation(k'.tree, other) == Translation(k.tree, other)
    ensures Translation(k'.tree, va) != []
  {
    IndexIsPath(va, other, 1);
    PageIndex(va);
    PageIndex(other);
    assert |PathTo(other, 0)| == 5;
    assert PathTo(va, 0) in k'.tree;
  }

  /** The physical address of an entry of the table page at a path. */
  function EntryAddress(tree: map<Path, nat>, path: Path, offset: nat): nat
    requires path in tree
  {
    tree[path] * PAGE + 8 * offset
  }

  /** No two page table entries share a physical address, and none lies in a data page. */
  lemma EntriesApart(k: Kernel, limit: nat, p: Path, q: Path, i: nat, j: nat)
    requires KernelInv(k, limit) && p in k.tree && q in k.tree && i < ENTRIES && j < ENTRIES
    ensures EntryAddress(k.tree, p, i) == EntryAddress(k.tree, q, j) ==> p == q && i == j
    ensures p != q ==> EntryAddress(k.tree, p, i) / PAGE != k.tree[q]
  {
    var a, b := k.tree[p], k.tree[q];
    assert 8 * i < PAGE && 8 * j < PAGE;
  }

  lemma FaultStep(k: Kernel, va: nat, level: nat, cs: seq<Chance>, limit: nat)
    requires k in Kernels(limit) && va < VA_SPACE && level <= 5 && EndsAt(k.tree, va, level)
    requires |cs| > 5 && AllRich(cs, limit) && k.memory.used < limit
    ensures var k' := AddPage(k, va, level, cs[level], limit);
      && k' in Kernels(limit) && k'.memory.used == k.memory.used + 1
      && (level > 0 ==> EndsAt(k'.tree, va, level - 1))
  {
    assert PathTo(va, level) !in k.tree && (level < 5 ==> PathTo(va, level + 1) in k.tree);
    AddPageKeeps(k, va, level, cs[level], limit);
    var k' := AddPage(k, va, level, cs[level], limit);
    MissingNext(k.tree, k'.tree[PathTo(va, level)], va, level);
  }

  lemma {:induction false} FaultAliases(k: Kernel, va: nat, level: nat, cs: seq<Chance>, limit: nat)
    requires k in Kernels(limit) && va < VA_SPACE && level <= 5 && EndsAt(k.tree, va, level)
    requires |cs| > 5 && AllRich(cs, limit) && limit > 0 && k.memory.used + level >= limit
    ensures !Distinct(Fault(k, va, level, cs, limit).tree)
    decreases level
  {
    if k.memory.used < limit {
      FaultStep(k, va, level, cs, limit);
      FaultAliases(AddPage(k, va, level, cs[level], limit), va, level - 1, cs, limit);
    } else {
      FullMemoryAliases(k, va, level, cs[level], limit);
      FaultStaysAliased(k, va, level, cs, limit);
    }
  }

  /** A fault leaves all pages of the tree different exactly when memory has a page for each that is missing. */
  lemma FaultDistinct(k: Kernel, va: nat, level: nat, cs: seq<Chance>, limit: nat)
    requires KernelInv(k, limit) && va < VA_SPACE && level <= 5 && EndsAt(k.tree, va, level)
    requires |cs| > 5 && AllRich(cs, limit) && limit > 0
    ensures Distinct(Fault(k, va, level, cs, limit).tree) <==> k.memory.used + level < limit
  {
    if k.memory.used + level < limit {
      FaultKeeps(k, va, level, cs, limit);
    } else {
      FaultAliases(k, va, level, cs, limit);
    }
  }

  lemma AddPageIs(k: Kernel, va: nat, level: nat, c: Chance, limit: nat, memory: Memory, page: nat)
    requires level <= 5 && c.log < 10
    requires var vpage := if level == 0 then va / PAGE else k.nextTable;
      memory == Translate(k.memory, vpage, c, limit) && vpage in memory.pageTable && page == memory.pageTable[vpage]
    ensures AddPage(k, va, level, c, limit) ==
      Kernel(memory, k.tree[PathTo(va, level) := page], if level == 0 then k.nextTable else k.nextTable + 1)
  {}

  /** The operating system's side of the walker: the tree, as a table of the pages at each path. */
  class PageTables {
    const memory: Allocator
    var tree: map<Path, nat>
    var nextTable: nat

    constructor (limit: nat)
      requires limit > 0
      ensures fresh(memory) && memory.limit == limit && View() == BOOT
    {
      memory := new Allocator(limit);
      tree, nextTable := map[], TABLES_FROM;
    }

    ghost function View(): Kernel
      reads this, memory
    {
      Kernel(memory.View(), tree, nextTable)
    }

    method MapTranslationPage(c: Chance) returns (page: nat)
      requires memory.limit > 0 && Inv(memory.View(), memory.limit) && Rich(c, memory.limit)
      modifies this`nextTable, memory
      ensures memory.View() == Translate(old(memory.View()), old(nextTable), c, memory.limit)
      ensures nextTable == old(nextTable) + 1
      ensures old(nextTable) in memory.pageTable && page == memory.pageTable[old(nextTable)]
    {
      var pa, _ := memory.VaToPa(nextTable * PAGE, c);
      nextTable := nextTable + 1;
      page := pa / PAGE;
    }

    method MapDataPage(va: nat, c: Chance) returns (page: nat)
      requires memory.limit > 0 && Inv(memory.View(), memory.limit) && Rich(c, memory.limit)
      modifies memory
      ensures memory.View() == Translate(old(memory.View()), va / PAGE, c, memory.limit)
      ensures va / PAGE in memory.pageTable && page == memory.pageTable[va / PAGE]
    {
      var pa, _ := memory.VaToPa(va, c);
      page := pa / PAGE;
    }

    /** Map the page of one level, and enter it in the table above it. */
    method AddOne(va: nat, level: nat, c: Chance)
      requires level <= 5 && memory.limit > 0 && Inv(memory.View(), memory.limit) && Rich(c, memory.limit)
      modifies this, memory
      ensures View() == AddPage(old(View()), va, level, c, memory.limit)
    {
      ghost var k := View();
      var base: nat;
      if level > 0 {
        base := MapTranslationPage(c);
      } else {
        base := MapDataPage(va, c);
      }
      tree := tree[PathTo(va, level) := base];
      AddPageIs(k, va, level, c, memory.limit, memory.View(), base);
    }

    /** One turn of the handler's loop: the entry is vacant, and gets its page. */
    method AddNext(va: nat, level: nat, cs: seq<Chance>, ghost whole: Kernel) returns (next: nat)
      requires View() in Faulting(va, level, cs, memory.limit, whole)
      modifies this, memory
      ensures if level > 0 then next == level - 1 && View() in Faulting(va, next, cs, memory.limit, whole)
        else View() == whole
      ensures Inv(memory.View(), memory.limit)
    {
      assert PathTo(va, level) !in tree;
      FaultingNext(View(), va, level, cs, memory.limit, whole);
      AddOne(va, level, cs[level]);
      next := if level > 0 then level - 1 else 0;
    }

    /** `handle_page_fault`, when the page of `level` is the first one missing. */
    method HandlePageFault(va: nat, level: nat, cs: seq<Chance>)
      requires memory.limit > 0 && Inv(memory.View(), memory.limit) && |cs| > 5 && AllRich(cs, memory.limit)
      requires level <= 5 && EndsAt(tree, va, level)
      modifies this, memory
      ensures View() == Fault(old(View()), va, level, cs, memory.limit)
      ensures Inv(memory.View(), memory.limit)
    {
      ghost var whole := Fault(View(), va, level, cs, memory.limit);
      var l: nat := level;
      while l > 0
        invariant View() in Faulting(va, l, cs, memory.limit, whole)
      {
        l := AddNext(va, l, cs, whole);
      }
      var _ := AddNext(va, l, cs, whole);
    }
  }

  /** The kernels in which a fault that goes on at a level ends with this one. */
  ghost function Faulting(va: nat, level: nat, cs: seq<Chance>, limit: nat, whole: Kernel): iset<Kernel> {
    iset k: Kernel |
    && limit > 0 && Inv(k.memory, limit) && |cs| > 5 && AllRich(cs, limit)
    && level <= 5 && EndsAt(k.tree, va, level) && whole == Fault(k, va, level, cs, limit)
  }

  lemma FaultingNext(k: Kernel, va: nat, level: nat, cs: seq<Chance>, limit: nat, whole: Kernel)
    requires k in Faulting(va, level, cs, limit, whole)
    ensures var k' := AddPage(k, va, level, cs[level], limit);
      Inv(k'.memory, limit) && if level > 0 then k' in Faulting(va, level - 1, cs, limit, whole) else k' == whole
  {
    TranslateKeeps(k.memory, if level == 0 then va / PAGE else k.nextTable, cs[level], limit);
    MissingNext(k.tree, AddPage(k, va, level, cs[level], limit).tree[PathTo(va, level)], va, level);
  }
}
