/** The page table walker: one walk at a time, shortened by four MMU caches.

    The cache of level k holds, by address index, the bases of the table pages below level k.  Main
    results, in every reachable state: the caches agree with the tree and hold no tag twice, every address
    sent to memory for a request is the entry address that the full walk reaches, but for the prefetches
    described, and every reply is the translation in the tree.  The pages of the tree are all different
    exactly as long as memory does not run out. */
module PageWalker {
  import opened Common
  import opened Lru
  import opened PageAllocator
  import opened PageTree

  // ----- The MMU caches ---------------------------------------------------------------------

  /** Rows of one cache; its lines map an address index to the base of the next table page. */
  type Rows = seq<seq<Line<nat>>>

  function CacheSets(level: nat): (n: nat)
    ensures n > 0
  {
    if level == 2 then 4 else if level == 3 then 2 else 1
  }

  function CacheWays(level: nat): (n: nat)
    ensures n > 0
  {
    if level == 2 then 8 else if level == 5 then 2 else 4
  }

  /** The request in service: where its walk stands, where it began, and what it last asked memory. */
  datatype Walk = Walk(va: nat, level: nat, init: nat, returned: bool, prefetch: bool, address: nat)

  datatype Caches = Caches(pscl2: Rows, pscl3: Rows, pscl4: Rows, pscl5: Rows)

  datatype Walker = Walker(kernel: Kernel, caches: Caches, walk: Option<Walk>)

  datatype Reply = NoReply | Translated(va: nat, data: nat) | Dropped(va: nat)

  predicate RowsShaped(rows: Rows, level: nat) {
    |rows| == CacheSets(level) && forall i :: 0 <= i < |rows| ==> |rows[i]| == CacheWays(level)
  }

  predicate Shaped(c: Caches) {
    RowsShaped(c.pscl2, 2) && RowsShaped(c.pscl3, 3) && RowsShaped(c.pscl4, 4) && RowsShaped(c.pscl5, 5)
  }

  function CacheOf(c: Caches, level: nat): (rows: Rows)
    requires Shaped(c) && 2 <= level <= 5
    ensures RowsShaped(rows, level)
  {
    match level
    case 2 => c.pscl2
    case 3 => c.pscl3
    case 4 => c.pscl4
    case 5 => c.pscl5
  }

  function BlankRows(level: nat): Rows {
    seq(CacheSets(level), _ => Blank(CacheWays(level), 0))
  }

  const IDLE := Walker(BOOT, Caches(BlankRows(2), BlankRows(3), BlankRows(4), BlankRows(5)), None)

  function RowOf(va: nat, level: nat): (i: nat)
    requires 2 <= level <= 5
    ensures i < CacheSets(level)
  {
    Index(va, level) % CacheSets(level)
  }

  /** `check_hit`: the base cached at a level for an address, if any. */
  function CheckHit(c: Caches, va: nat, level: nat): Option<nat>
    requires Shaped(c) && 2 <= level <= 5
  {
    var row := CacheOf(c, level)[RowOf(va, level)];
    var way := WayOf(row, Index(va, level), 0);
    if way < |row| then Some(row[way].data) else None
  }

  /** The fill of a row: a victim is replaced, whether or not the tag is already there. */
  function FillRow(row: seq<Line<nat>>, tag: nat, data: nat): (row': seq<Line<nat>>)
    ensures |row'| == |row|
  {
    var way := Victim(row);
    if way < |row| then Promote(row, way)[way := Line(true, tag, data, 0)] else row
  }

  /** `fill_mmu_cache`. */
  function FillCache(rows: Rows, va: nat, level: nat, data: nat): (rows': Rows)
    requires RowsShaped(rows, level) && 2 <= level <= 5
    ensures RowsShaped(rows', level)
  {
    var i := RowOf(va, level);
    rows[i := FillRow(rows[i], Index(va, level), data)]
  }

  /** What a table entry holds for a missing page. */
  const NO_PAGE: nat := 0xFFFF_FFFF_FFFF_FFFF

  function BaseAt(tree: map<Path, nat>, path: Path): nat {
    if path in tree then tree[path] else NO_PAGE
  }

  function Learn(rows: Rows, tree: map<Path, nat>, va: nat, level: nat, init: nat): (rows': Rows)
    requires RowsShaped(rows, level) && 2 <= level <= 5
    ensures RowsShaped(rows', level)
  {
    if level <= init then FillCache(rows, va, level, BaseAt(tree, PathTo(va, level - 1))) else rows
  }

  /** After a completed walk the caches of level 2 .. init learn the pages below their level. */
  function FillCaches(c: Caches, tree: map<Path, nat>, va: nat, init: nat): (c': Caches)
    requires Shaped(c)
    ensures Shaped(c')
  {
    Caches(Learn(c.pscl2, tree, va, 2, init), Learn(c.pscl3, tree, va, 3, init),
           Learn(c.pscl4, tree, va, 4, init), Learn(c.pscl5, tree, va, 5, init))
  }

  // ----- Steps ------------------------------------------------------------------------------

  /** The address of the entry that the full walk reads at a level. */
  function WalkAddress(tree: map<Path, nat>, va: nat, level: nat): nat
    requires 1 <= level <= 5
  {
    BaseAt(tree, PathTo(va, level)) * PAGE + 8 * Offset(va, level)
  }

  /** The level at which a new request starts: just below the lowest cached level, or at the root. */
  function StartLevel(c: Caches, va: nat): (level: nat)
    requires Shaped(c)
    ensures 1 <= level <= 5
  {
    if CheckHit(c, va, 2).Some? then 1
    else if CheckHit(c, va, 3).Some? then 2
    else if CheckHit(c, va, 4).Some? then 3
    else if CheckHit(c, va, 5).Some? then 4
    else 5
  }

  /** The address whose offset is used after a hit in the level 5 cache: the request's own; but for a
      request from the prefetch queue, that of an entry of the read queue.  Such a request starts only when the
      read queue is empty, and a removed entry is reset to address 0. */
  function OffsetVa(va: nat, fromPrefetchQueue: bool): nat {
    if fromPrefetchQueue then 0 else va
  }

  /** The first address asked for. */
  function StartAddress(w: Walker, va: nat, offsetVa: nat): nat
    requires Shaped(w.caches)
  {
    var level := StartLevel(w.caches, va);
    var base := if level == 5 then BaseAt(w.kernel.tree, []) else CheckHit(w.caches, va, level + 1).value;
    base * PAGE + 8 * (if level == 4 then Offset(offsetVa, 4) else Offset(va, level))
  }

  /** What goes back to the TLB: the page, shifted into place, with a low bit that the TLB drops. */
  function ReplyData(page: nat, va: nat): nat {
    page * PAGE + if va != 0 then 1 else 0
  }

  /** The walk is complete: the caches up to level init learn it and the reply goes out. */
  function Complete(w: Walker, kernel: Kernel, va: nat, init: nat): (r: (Walker, Reply))
    requires Shaped(w.caches)
    ensures Shaped(r.0.caches)
  {
    (Walker(kernel, FillCaches(w.caches, kernel.tree, va, init), None),
     Translated(va, ReplyData(BaseAt(kernel.tree, PathTo(va, 0)), va)))
  }

  /** A new request; the very first one builds the root. */
  function Start(w: Walker, va: nat, offsetVa: nat, prefetch: bool, cs: seq<Chance>, limit: nat): (r: (Walker, Reply))
    requires Shaped(w.caches) && |cs| > 5 && forall i :: 0 <= i < |cs| ==> cs[i].log < 10
    ensures Shaped(r.0.caches)
  {
    var level := StartLevel(w.caches, va);
    if level == 5 && [] !in w.kernel.tree then Complete(w, Fault(w.kernel, va, 5, cs, limit), va, 5)
    else (w.(walk := Some(Walk(va, level, level, false, prefetch, StartAddress(w, va, offsetVa)))), NoReply)
  }

  /** Memory has answered: one level is done. */
  function Return(w: Walker): Walker
    requires w.walk.Some? && w.walk.value.level > 0
  {
    w.(walk := Some(w.walk.value.(returned := true, level := w.walk.value.level - 1)))
  }

  /** The first level from `from` down to `level` whose page is missing on the walk; None if all are
      there. */
  function FirstMissing(tree: map<Path, nat>, va: nat, from: nat, level: nat): (missing: Option<nat>)
    requires from <= 5
    ensures missing.Some? ==> level <= missing.value <= from && PathTo(va, missing.value) !in tree
    ensures missing.Some? ==> forall l :: missing.value < l <= from ==> PathTo(va, l) in tree
    ensures missing.None? ==> forall l :: level <= l <= from ==> PathTo(va, l) in tree
    decreases from, va
  {
    if from < level then None
    else if PathTo(va, from) !in tree then Some(from)
    else if from == 0 then None else FirstMissing(tree, va, from - 1, level)
  }

  /** `operate` with an answered request: fault, complete, or ask for the next level if memory has
      room for the question. */
  function Advance(w: Walker, room: bool, cs: seq<Chance>, limit: nat): (r: (Walker, Reply))
    requires Shaped(w.caches) && w.walk.Some? && w.walk.value.level <= 5
    requires |cs| > 5 && forall i :: 0 <= i < |cs| ==> cs[i].log < 10
    ensures Shaped(r.0.caches)
  {
    var walk := w.walk.value;
    var missing := FirstMissing(w.kernel.tree, walk.va, 4, walk.level);
    if missing.Some? && walk.prefetch then (w.(walk := None), Dropped(walk.va))
    else if missing.Some? then Complete(w, Fault(w.kernel, walk.va, missing.value, cs, limit), walk.va, walk.init)
    else if walk.level == 0 then Complete(w, w.kernel, walk.va, walk.init)
    else if !room then (w, NoReply)
    else
      (w.(walk := Some(walk.(returned := false, address := WalkAddress(w.kernel.tree, walk.va, walk.level)))), NoReply)
  }

  // ----- The invariant ----------------------------------------------------------------------

  /** A cached line holds the base that the walk reaches for every address with its index. */
  ghost predicate LineOk(tree: map<Path, nat>, line: Line<nat>, level: nat, i: nat)
    requires 2 <= level <= 5
  {
    line.valid ==>
      && line.tag % CacheSets(level) == i
      && forall va: nat {:trigger Index(va, level)} :: Index(va, level) == line.tag ==>
           PathTo(va, level - 1) in tree && line.data == tree[PathTo(va, level - 1)]
  }

  ghost predicate RowOk(tree: map<Path, nat>, row: seq<Line<nat>>, level: nat, i: nat)
    requires 2 <= level <= 5
  {
    && (forall v :: 0 <= v < |row| ==> LineOk(tree, row[v], level, i))
    && (forall u, v :: 0 <= u < v < |row| && row[u].valid && row[v].valid ==> row[u].tag != row[v].tag)
    && exists n: nat :: Ordered(row, n)
  }

  ghost predicate CacheOk(tree: map<Path, nat>, rows: Rows, level: nat)
    requires 2 <= level <= 5
  {
    RowsShaped(rows, level) && forall i :: 0 <= i < |rows| ==> RowOk(tree, rows[i], level, i)
  }

  ghost predicate CachesOk(tree: map<Path, nat>, c: Caches) {
    CacheOk(tree, c.pscl2, 2) && CacheOk(tree, c.pscl3, 3) && CacheOk(tree, c.pscl4, 4) && CacheOk(tree, c.pscl5, 5)
  }

  /** The caches up to this level do not have the address. */
  ghost predicate Uncached(c: Caches, va: nat, level: nat)
    requires Shaped(c) && level <= 5
  {
    forall k {:trigger CheckHit(c, va, k)} :: 2 <= k <= level ==> CheckHit(c, va, k).None?
  }

  /** The walk in service stands on pages of the tree, the caches up to its first level missed, and it
      has asked for the entry that the full walk reads. */
  ghost predicate WalkOk(w: Walker, walk: Walk)
    requires Shaped(w.caches)
  {
    && 0 < walk.va < VA_SPACE && walk.level <= walk.init && 1 <= walk.init <= 5 && [] in w.kernel.tree
    && (walk.returned ==> walk.level < 5)
    && (!walk.returned ==> walk.level > 0 && PathTo(walk.va, walk.level) in w.kernel.tree)
    && Uncached(w.caches, walk.va, walk.init)
  }

  ghost predicate WalkerInv(w: Walker) {
    && Shaped(w.caches) && Closed(w.kernel.tree) && CachesOk(w.kernel.tree, w.caches)
    && (w.walk.Some? ==> WalkOk(w, w.walk.value))
  }

  /** The walkers that satisfy the invariant. */
  ghost function Good(): iset<Walker> {
    iset w: Walker | WalkerInv(w)
  }

  // ----- Filling the caches -----------------------------------------------------------------

  lemma LineGrows(tree: map<Path, nat>, tree': map<Path, nat>, line: Line<nat>, level: nat, i: nat)
    requires 2 <= level <= 5 && LineOk(tree, line, level, i)
    requires forall path :: path in tree ==> path in tree' && tree'[path] == tree[path]
    ensures LineOk(tree', line, level, i)
  {}

  lemma CacheGrows(tree: map<Path, nat>, tree': map<Path, nat>, rows: Rows, level: nat)
    requires 2 <= level <= 5 && CacheOk(tree, rows, level)
    requires forall path :: path in tree ==> path in tree' && tree'[path] == tree[path]
    ensures CacheOk(tree', rows, level)
  {
    forall i | 0 <= i < |rows| ensures RowOk(tree', rows[i], level, i) {
      assert RowOk(tree, rows[i], level, i);
      forall v | 0 <= v < |rows[i]| ensures LineOk(tree', rows[i][v], level, i) {
        LineGrows(tree, tree', rows[i][v], level, i);
      }
    }
  }

  /** Growing the tree keeps every cached line right. */
  lemma CachesGrow(tree: map<Path, nat>, tree': map<Path, nat>, c: Caches)
    requires CachesOk(tree, c)
    requires forall path :: path in tree ==> path in tree' && tree'[path] == tree[path]
    ensures CachesOk(tree', c)
  {
    CacheGrows(tree, tree', c.pscl2, 2);
    CacheGrows(tree, tree', c.pscl3, 3);
    CacheGrows(tree, tree', c.pscl4, 4);
    CacheGrows(tree, tree', c.pscl5, 5);
  }

  lemma NewLineOk(tree: map<Path, nat>, va: nat, level: nat)
    requires 2 <= level <= 5 && PathTo(va, level - 1) in tree
    ensures LineOk(tree, Line(true, Index(va, level), tree[PathTo(va, level - 1)], 0), level, RowOf(va, level))
  {
    forall va': nat {:trigger Index(va', level)} | Index(va', level) == Index(va, level)
      ensures PathTo(va', level - 1) in tree && tree[PathTo(va', level - 1)] == tree[PathTo(va, level - 1)]
    {
      IndexIsPath(va, va', level);
    }
  }

  lemma FillRowKeeps(tree: map<Path, nat>, row: seq<Line<nat>>, level: nat, i: nat, line: Line<nat>)
    requires 2 <= level <= 5 && RowOk(tree, row, level, i) && LineOk(tree, line, level, i) && |row| > 0
    requires line.valid && line.lru == 0 && WayOf(row, line.tag, 0) == |row|
    ensures RowOk(tree, FillRow(row, line.tag, line.data), level, i)
  {
    var n: nat :| Ordered(row, n);
    VictimFound(row, n);
    var way := Victim(row);
    var row' := FillRow(row, line.tag, line.data);
    PromoteOrdered(row, n, way, Item(line.tag, line.data), row');
    forall v | 0 <= v < |row'| ensures LineOk(tree, row'[v], level, i) {
      assert LineOk(tree, row[v], level, i);
    }
  }

  lemma LearnKeeps(tree: map<Path, nat>, rows: Rows, va: nat, level: nat, init: nat)
    requires 2 <= level <= 5 && CacheOk(tree, rows, level) && PathTo(va, level - 1) in tree
    requires level <= init ==> var row := rows[RowOf(va, level)]; WayOf(row, Index(va, level), 0) == |row|
    ensures CacheOk(tree, Learn(rows, tree, va, level, init), level)
  {
    if level <= init {
      var i := RowOf(va, level);
      assert RowOk(tree, rows[i], level, i);
      NewLineOk(tree, va, level);
      FillRowKeeps(tree, rows[i], level, i, Line(true, Index(va, level), tree[PathTo(va, level - 1)], 0));
    }
  }

  lemma FillCachesKeep(tree: map<Path, nat>, c: Caches, va: nat, init: nat)
    requires Shaped(c) && CachesOk(tree, c) && init <= 5 && Uncached(c, va, init)
    requires forall l :: 0 <= l <= 5 ==> PathTo(va, l) in tree
    ensures CachesOk(tree, FillCaches(c, tree, va, init))
  {
    MissedRow(c, va, 2, init);
    MissedRow(c, va, 3, init);
    MissedRow(c, va, 4, init);
    MissedRow(c, va, 5, init);
    LearnKeeps(tree, c.pscl2, va, 2, init);
    LearnKeeps(tree, c.pscl3, va, 3, init);
    LearnKeeps(tree, c.pscl4, va, 4, init);
    LearnKeeps(tree, c.pscl5, va, 5, init);
  }

  lemma MissedRow(c: Caches, va: nat, level: nat, init: nat)
    requires Shaped(c) && 2 <= level <= 5 && init <= 5 && Uncached(c, va, init)
    ensures level <= init ==> var row := CacheOf(c, level)[RowOf(va, level)]; WayOf(row, Index(va, level), 0) == |row|
  {
    assert level <= init ==> CheckHit(c, va, level).None?;
  }

  // ----- The steps keep it ------------------------------------------------------------------

  lemma BlankOk(level: nat)
    requires 2 <= level <= 5
    ensures CacheOk(map[], BlankRows(level), level)
  {
    forall i | 0 <= i < CacheSets(level) ensures RowOk(map[], BlankRows(level)[i], level, i) {
      assert Ordered(BlankRows(level)[i], 0);
    }
  }

  lemma IdleInv()
    ensures WalkerInv(IDLE)
  {
    BlankOk(2);
    BlankOk(3);
    BlankOk(4);
    BlankOk(5);
  }

  /** A hit means that the page below the level is in the tree and that its base was returned. */
  lemma HitIsBase(tree: map<Path, nat>, c: Caches, va: nat, level: nat)
    requires Shaped(c) && CachesOk(tree, c) && 2 <= level <= 5 && CheckHit(c, va, level).Some?
    ensures PathTo(va, level - 1) in tree && CheckHit(c, va, level).value == tree[PathTo(va, level - 1)]
  {
    var rows := CacheOf(c, level);
    var i := RowOf(va, level);
    assert CacheOk(tree, rows, level);
    assert RowOk(tree, rows[i], level, i);
    var way := WayOf(rows[i], Index(va, level), 0);
    assert LineOk(tree, rows[i][way], level, i);
  }

  lemma StartUncached(c: Caches, va: nat)
    requires Shaped(c)
    ensures var level := StartLevel(c, va); Uncached(c, va, level) && (level < 5 ==> CheckHit(c, va, level + 1).Some?)
  {
    var h2, h3, h4, h5 := CheckHit(c, va, 2), CheckHit(c, va, 3), CheckHit(c, va, 4), CheckHit(c, va, 5);
    forall k | 2 <= k <= StartLevel(c, va) ensures CheckHit(c, va, k).None? {
      assert k == 2 || k == 3 || k == 4 || k == 5;
    }
  }

  /** A request starts on a page of the tree. */
  lemma StartsInTree(w: Walker, va: nat)
    requires WalkerInv(w) && StartLevel(w.caches, va) < 5
    ensures var level := StartLevel(w.caches, va);
      PathTo(va, level) in w.kernel.tree && CheckHit(w.caches, va, level + 1) == Some(w.kernel.tree[PathTo(va, level)])
  {
    StartUncached(w.caches, va);
    HitIsBase(w.kernel.tree, w.caches, va, StartLevel(w.caches, va) + 1);
  }

  lemma ClosedUp(tree: map<Path, nat>, va: nat, level: nat, upper: nat)
    requires Closed(tree) && level <= upper <= 5 && PathTo(va, level) in tree
    ensures PathTo(va, upper) in tree
  {
    PathPrefix(va, upper, level);
  }

  /** The level that the walk finds missing is the first one missing. */
  lemma FoundMissing(tree: map<Path, nat>, va: nat, missing: nat)
    requires Closed(tree) && missing <= 5 && PathTo(va, missing) !in tree
    requires forall l :: missing < l <= 5 ==> PathTo(va, l) in tree
    ensures EndsAt(tree, va, missing)
  {
    forall l | 0 <= l < missing ensures PathTo(va, l) !in tree {
      if PathTo(va, l) in tree {
        ClosedUp(tree, va, l, missing);
      }
    }
  }

  /** The state after a completed walk, and its reply. */
  lemma CompleteKeeps(w: Walker, kernel: Kernel, va: nat, init: nat)
    requires WalkerInv(w) && Closed(kernel.tree) && init <= 5 && Uncached(w.caches, va, init)
    requires forall path :: path in w.kernel.tree ==> path in kernel.tree && kernel.tree[path] == w.kernel.tree[path]
    requires forall l :: 0 <= l <= 5 ==> PathTo(va, l) in kernel.tree
    ensures var (w', reply) := Complete(w, kernel, va, init);
      && w' in Good() && w'.walk.None? && w'.kernel == kernel
      && reply.Translated? && reply.va == va && reply.data / PAGE == kernel.tree[PathTo(va, 0)]
  {
    CachesGrow(w.kernel.tree, kernel.tree, w.caches);
    FillCachesKeep(kernel.tree, w.caches, va, init);
    assert PathTo(va, 0) in kernel.tree;
  }

  /** What a step leaves of the tree: more pages, and none of the old ones changed. */
  ghost predicate TreeKept(w: Walker, w': Walker) {
    forall path :: path in w.kernel.tree ==> path in w'.kernel.tree && w'.kernel.tree[path] == w.kernel.tree[path]
  }

  /** A reply carries the translation in the tree. */
  ghost predicate ReplyOk(tree: map<Path, nat>, reply: Reply) {
    reply.Translated? ==> PathTo(reply.va, 0) in tree && reply.data / PAGE == tree[PathTo(reply.va, 0)]
  }

  lemma FaultCompletes(w: Walker, va: nat, init: nat, missing: nat, cs: seq<Chance>, limit: nat)
    requires WalkerInv(w) && init <= 5 && Uncached(w.caches, va, init)
    requires missing <= 5 && EndsAt(w.kernel.tree, va, missing)
    requires |cs| > 5 && forall i :: 0 <= i < |cs| ==> cs[i].log < 10
    ensures var (w', reply) := Complete(w, Fault(w.kernel, va, missing, cs, limit), va, init);
      w' in Good() && w'.walk.None? && TreeKept(w, w') && ReplyOk(w'.kernel.tree, reply)
  {
    FaultServices(w.kernel, va, missing, cs, limit);
    CompleteKeeps(w, Fault(w.kernel, va, missing, cs, limit), va, init);
  }

  /** Where and with which offset the walker reads an entry: at the page that the full walk reaches. */
  ghost predicate AskOk(tree: map<Path, nat>, va: nat, level: nat, offsetVa: nat, address: nat) {
    && 1 <= level <= 5 && PathTo(va, level) in tree
    && address == EntryAddress(tree, PathTo(va, level), Offset(if level == 4 then offsetVa else va, level))
  }

  /** What every step leaves: the invariant, a tree that only grew, a right reply, and a right ask if
      it has just asked. */
  ghost predicate StepOk(w: Walker, r: (Walker, Reply), offsetVa: nat) {
    && r.0 in Good() && TreeKept(w, r.0) && ReplyOk(r.0.kernel.tree, r.1)
    && (Asks(r.0) ==> AskOk(r.0.kernel.tree, r.0.walk.value.va, r.0.walk.value.level, offsetVa, r.0.walk.value.address))
  }

  /** The walker waits for an answer. */
  predicate Asks(w: Walker) {
    w.walk.Some? && !w.walk.value.returned
  }

  /** The first request of all builds the root and the rest of its walk. */
  lemma FirstStart(w: Walker, va: nat, cs: seq<Chance>, limit: nat)
    requires WalkerInv(w) && 0 < va < VA_SPACE && StartLevel(w.caches, va) == 5 && [] !in w.kernel.tree
    requires |cs| > 5 && forall i :: 0 <= i < |cs| ==> cs[i].log < 10
    ensures var (w', reply) := Complete(w, Fault(w.kernel, va, 5, cs, limit), va, 5);
      w' in Good() && w'.walk.None? && TreeKept(w, w') && ReplyOk(w'.kernel.tree, reply)
  {
    StartUncached(w.caches, va);
    assert PathTo(va, 5) == [];
    FoundMissing(w.kernel.tree, va, 5);
    FaultCompletes(w, va, 5, 5, cs, limit);
  }

  lemma StartAddressIs(w: Walker, va: nat, offsetVa: nat)
    requires WalkerInv(w) && (StartLevel(w.caches, va) < 5 || [] in w.kernel.tree)
    ensures var level := StartLevel(w.caches, va);
      && PathTo(va, level) in w.kernel.tree
      && AskOk(w.kernel.tree, va, level, offsetVa, StartAddress(w, va, offsetVa))
  {
    assert PathTo(va, 5) == [];
    if StartLevel(w.caches, va) < 5 {
      StartsInTree(w, va);
    }
  }

  lemma AskingFrom(w: Walker, va: nat, level: nat, prefetch: bool, address: nat)
    requires WalkerInv(w) && 0 < va < VA_SPACE && 1 <= level <= 5
    requires Uncached(w.caches, va, level) && PathTo(va, level) in w.kernel.tree
    ensures w.(walk := Some(Walk(va, level, level, false, prefetch, address))) in Good()
  {
    ClosedUp(w.kernel.tree, va, level, 5);
    assert PathTo(va, 5) == [];
  }

  /** Any other request asks for the entry of a page in the tree. */
  lemma AskingStart(w: Walker, va: nat, offsetVa: nat, prefetch: bool)
    requires WalkerInv(w) && 0 < va < VA_SPACE && (StartLevel(w.caches, va) < 5 || [] in w.kernel.tree)
    ensures var level := StartLevel(w.caches, va);
      var walk := Walk(va, level, level, false, prefetch, StartAddress(w, va, offsetVa));
      && w.(walk := Some(walk)) in Good()
      && AskOk(w.kernel.tree, va, level, offsetVa, StartAddress(w, va, offsetVa))
  {
    StartUncached(w.caches, va);
    StartAddressIs(w, va, offsetVa);
    AskingFrom(w, va, StartLevel(w.caches, va), prefetch, StartAddress(w, va, offsetVa));
  }

  lemma StartKeeps(w: Walker, va: nat, offsetVa: nat, prefetch: bool, cs: seq<Chance>, limit: nat)
    requires WalkerInv(w) && w.walk.None? && 0 < va < VA_SPACE
    requires |cs| > 5 && forall i :: 0 <= i < |cs| ==> cs[i].log < 10
    ensures StepOk(w, Start(w, va, offsetVa, prefetch, cs, limit), offsetVa)
  {
    if StartLevel(w.caches, va) == 5 && [] !in w.kernel.tree {
      FirstStart(w, va, cs, limit);
    } else {
      AskingStart(w, va, offsetVa, prefetch);
    }
  }

  lemma NextAsk(w: Walker)
    requires WalkerInv(w) && w.walk.Some? && w.walk.value.returned && w.walk.value.level > 0
    requires PathTo(w.walk.value.va, w.walk.value.level) in w.kernel.tree
    ensures var walk := w.walk.value;
      var next := walk.(returned := false, address := WalkAddress(w.kernel.tree, walk.va, walk.level));
      w.(walk := Some(next)) in Good() && AskOk(w.kernel.tree, walk.va, walk.level, walk.va, next.address)
  {}

  lemma WalkEnds(w: Walker)
    requires WalkerInv(w)
    ensures w.(walk := None) in Good()
  {}

  /** A missing page is found by its level and repaired from there. */
  lemma WalkFaults(w: Walker, missing: nat, cs: seq<Chance>, limit: nat)
    requires WalkerInv(w) && w.walk.Some? && w.walk.value.returned
    requires FirstMissing(w.kernel.tree, w.walk.value.va, 4, w.walk.value.level) == Some(missing)
    requires |cs| > 5 && forall i :: 0 <= i < |cs| ==> cs[i].log < 10
    ensures var walk := w.walk.value;
      var (w', reply) := Complete(w, Fault(w.kernel, walk.va, missing, cs, limit), walk.va, walk.init);
      w' in Good() && w'.walk.None? && TreeKept(w, w') && ReplyOk(w'.kernel.tree, reply)
  {
    var walk := w.walk.value;
    assert PathTo(walk.va, 5) == [];
    FoundMissing(w.kernel.tree, walk.va, missing);
    FaultCompletes(w, walk.va, walk.init, missing, cs, limit);
  }

  lemma WalkCompletes(w: Walker)
    requires WalkerInv(w) && w.walk.Some? && w.walk.value.level == 0
    requires FirstMissing(w.kernel.tree, w.walk.value.va, 4, 0) == None
    ensures var walk := w.walk.value;
      var (w', reply) := Complete(w, w.kernel, walk.va, walk.init);
      w' in Good() && w'.walk.None? && TreeKept(w, w') && ReplyOk(w'.kernel.tree, reply)
  {
    var walk := w.walk.value;
    assert PathTo(walk.va, 5) == [];
    CompleteKeeps(w, w.kernel, walk.va, walk.init);
  }

  lemma AdvanceKeeps(w: Walker, room: bool, cs: seq<Chance>, limit: nat)
    requires WalkerInv(w) && w.walk.Some? && w.walk.value.returned
    requires |cs| > 5 && forall i :: 0 <= i < |cs| ==> cs[i].log < 10
    ensures StepOk(w, Advance(w, room, cs, limit), w.walk.value.va)
  {
    var walk := w.walk.value;
    var missing := FirstMissing(w.kernel.tree, walk.va, 4, walk.level);
    if missing.Some? {
      WalkEnds(w);
      if !walk.prefetch {
        WalkFaults(w, missing.value, cs, limit);
      }
    } else if walk.level == 0 {
      WalkCompletes(w);
    } else {
      NextAsk(w);
    }
  }

  // ----- Whole runs -------------------------------------------------------------------------

  /** A new request, an answer from memory, or a cycle of the walker. */
  datatype Event =
    | Begin(va: nat, fromPrefetchQueue: bool, prefetch: bool, chances: seq<Chance>)
    | Answer
    | Cycle(room: bool, chances: seq<Chance>)

  /** One question to memory; it is borrowed when it is the first of a request from the prefetch queue. */
  datatype Ask = Ask(va: nat, level: nat, borrowed: bool, address: nat)

  /** The walker, all its questions and replies, and how many questions came before the request last begun. */
  datatype World = World(walker: Walker, asks: seq<Ask>, replies: seq<Reply>, begun: nat)

  /** Addresses are nonzero and have 57 bits, and there is chance enough. */
  ghost predicate Legal(e: Event, limit: nat) {
    match e
    case Begin(va, _, _, cs) => 0 < va < VA_SPACE && |cs| > 5 && AllRich(cs, limit)
    case Answer => true
    case Cycle(_, cs) => |cs| > 5 && AllRich(cs, limit)
  }

  predicate Enough(e: Event) {
    e.Answer? || (|e.chances| > 5 && forall i :: 0 <= i < |e.chances| ==> e.chances[i].log < 10)
  }

  /** The event happens only when the walker is ready for it. */
  predicate Enabled(w: Walker, e: Event) {
    match e
    case Begin(_, _, _, _) => w.walk.None?
    case Answer => w.walk.Some? && !w.walk.value.returned && w.walk.value.level > 0
    case Cycle(_, _) => w.walk.Some? && w.walk.value.returned && w.walk.value.level <= 5
  }

  function Noted(w: World, r: (Walker, Reply), borrowed: bool): World {
    var walk := r.0.walk;
    var asks := if Asks(r.0)
      then w.asks + [Ask(walk.value.va, walk.value.level, borrowed, walk.value.address)] else w.asks;
    w.(walker := r.0, asks := asks, replies := w.replies + [r.1])
  }

  function Step(w: World, e: Event, limit: nat): (w': World)
    requires Shaped(w.walker.caches)
    requires Enough(e)
    ensures Shaped(w'.walker.caches)
  {
    if !Enabled(w.walker, e) then w else
    match e
    case Begin(va, pq, prefetch, cs) =>
      Noted(w.(begun := |w.asks|), Start(w.walker, va, OffsetVa(va, pq), prefetch, cs, limit), pq)
    case Answer => w.(walker := Return(w.walker))
    case Cycle(room, cs) => Noted(w, Advance(w.walker, room, cs, limit), false)
  }

  ghost function Run(events: seq<Event>, limit: nat): (w: World)
    requires forall i :: 0 <= i < |events| ==> Legal(events[i], limit)
    ensures Shaped(w.walker.caches)
  {
    if events == [] then World(IDLE, [], [], 0) else
    assert Legal(events[|events| - 1], limit);
    Step(Run(events[..|events| - 1], limit), events[|events| - 1], limit)
  }

  ghost predicate NotedOk(tree: map<Path, nat>, a: Ask) {
    AskOk(tree, a.va, a.level, OffsetVa(a.va, a.borrowed), a.address)
  }

  ghost predicate RecordsOk(tree: map<Path, nat>, asks: seq<Ask>, replies: seq<Reply>) {
    && (forall i :: 0 <= i < |asks| ==> NotedOk(tree, asks[i]))
    && (forall i :: 0 <= i < |replies| ==> ReplyOk(tree, replies[i]))
  }

  ghost predicate WorldInv(w: World) {
    w.walker in Good() && RecordsOk(w.walker.kernel.tree, w.asks, w.replies)
  }

  /** What was asked and replied before stays right as the tree grows. */
  lemma RecordsGrow(tree: map<Path, nat>, tree': map<Path, nat>, asks: seq<Ask>, replies: seq<Reply>)
    requires RecordsOk(tree, asks, replies)
    requires forall path :: path in tree ==> path in tree' && tree'[path] == tree[path]
    ensures RecordsOk(tree', asks, replies)
  {
    forall i | 0 <= i < |asks| ensures NotedOk(tree', asks[i]) {
      assert NotedOk(tree, asks[i]);
    }
  }

  lemma RecordsAdd(tree: map<Path, nat>, asks: seq<Ask>, replies: seq<Reply>, ask: Ask, reply: Reply)
    requires RecordsOk(tree, asks, replies) && ReplyOk(tree, reply)
    ensures RecordsOk(tree, asks, replies + [reply])
    ensures NotedOk(tree, ask) ==> RecordsOk(tree, asks + [ask], replies + [reply])
  {}

  /** The offset that a step used is the borrowed one exactly when it is so noted. */
  ghost predicate UsedOffset(r: (Walker, Reply), offsetVa: nat, borrowed: bool) {
    Asks(r.0) ==> offsetVa == OffsetVa(r.0.walk.value.va, borrowed)
  }

  lemma NotedKeeps(w: World, r: (Walker, Reply), offsetVa: nat, borrowed: bool)
    requires WorldInv(w) && StepOk(w.walker, r, offsetVa) && UsedOffset(r, offsetVa, borrowed)
    ensures WorldInv(Noted(w, r, borrowed))
  {
    RecordsGrow(w.walker.kernel.tree, r.0.kernel.tree, w.asks, w.replies);
    var ask := if Asks(r.0)
      then Ask(r.0.walk.value.va, r.0.walk.value.level, borrowed, r.0.walk.value.address) else Ask(0, 0, false, 0);
    RecordsAdd(r.0.kernel.tree, w.asks, w.replies, ask, r.1);
  }

  lemma NotedAllKeep(w: World, offsetVa: nat, borrowed: bool)
    requires WorldInv(w)
    ensures forall r :: StepOk(w.walker, r, offsetVa) && UsedOffset(r, offsetVa, borrowed) ==>
      WorldInv(Noted(w, r, borrowed))
  {
    forall r | StepOk(w.walker, r, offsetVa) && UsedOffset(r, offsetVa, borrowed)
      ensures WorldInv(Noted(w, r, borrowed))
    {
      NotedKeeps(w, r, offsetVa, borrowed);
    }
  }

  lemma BeginKeeps(w: World, e: Event, limit: nat)
    requires WorldInv(w) && e.Begin? && Legal(e, limit) && Enabled(w.walker, e)
    ensures WorldInv(Step(w, e, limit))
  {
    var offsetVa := OffsetVa(e.va, e.fromPrefetchQueue);
    StartKeeps(w.walker, e.va, offsetVa, e.prefetch, e.chances, limit);
    NotedAllKeep(w, offsetVa, e.fromPrefetchQueue);
    assert UsedOffset(Start(w.walker, e.va, offsetVa, e.prefetch, e.chances, limit), offsetVa, e.fromPrefetchQueue);
  }

  lemma CycleKeeps(w: World, e: Event, limit: nat)
    requires WorldInv(w) && e.Cycle? && Legal(e, limit) && Enabled(w.walker, e)
    ensures WorldInv(Step(w, e, limit))
  {
    AdvanceKeeps(w.walker, e.room, e.chances, limit);
    NotedAllKeep(w, w.walker.walk.value.va, false);
    assert UsedOffset(Advance(w.walker, e.room, e.chances, limit), w.walker.walk.value.va, false);
  }

  lemma AnswerKeeps(w: World)
    requires WorldInv(w) && Enabled(w.walker, Answer)
    ensures WorldInv(w.(walker := Return(w.walker)))
  {}

  lemma StepKeeps(w: World, e: Event, limit: nat)
    requires WorldInv(w) && Legal(e, limit)
    ensures WorldInv(Step(w, e, limit))
  {
    if Enabled(w.walker, e) {
      match e
      case Begin(_, _, _, _) => BeginKeeps(w, e, limit);
      case Answer => AnswerKeeps(w);
      case Cycle(_, _) => CycleKeeps(w, e, limit);
    }
  }

  lemma {:induction false} ReachableInv(events: seq<Event>, limit: nat)
    requires forall i :: 0 <= i < |events| ==> Legal(events[i], limit)
    ensures WorldInv(Run(events, limit))
  {
    if events == [] {
      IdleInv();
    } else {
      var before := events[..|events| - 1];
      ReachableInv(before, limit);
      StepKeeps(Run(before, limit), events[|events| - 1], limit);
    }
  }

  // ----- The main results -------------------------------------------------------------------

  /** w is the walker after a run. */
  ghost predicate Reached(events: seq<Event>, limit: nat, w: World) {
    (forall j :: 0 <= j < |events| ==> Legal(events[j], limit)) && w == Run(events, limit)
  }

  lemma ReachedInv(events: seq<Event>, limit: nat, w: World)
    requires Reached(events, limit, w)
    ensures WorldInv(w)
  {
    ReachableInv(events, limit);
  }

  /** The level 4 offset is bits 39 to 47 of the address. */
  lemma OffsetBits(va: nat)
    ensures Offset(va, 4) == va / 0x80_0000_0000 % ENTRIES
  {
    assert Span(2) == 0x20_0000 && Span(3) == 0x4000_0000 && Span(4) == 0x80_0000_0000;
    var q, rest := va / VA_SPACE, va % VA_SPACE;
    Multiples(q, rest / 0x80_0000_0000);
    assert va / 0x80_0000_0000 == 0x4_0000 * q + rest / 0x80_0000_0000;
  }

  lemma Multiples(q: nat, d: nat)
    ensures (0x4_0000 * q + d) % ENTRIES == d % ENTRIES
  {}

  /** A request from the prefetch queue borrows the offset 0 of level 4, which is wrong if its own is not 0. */
  predicate OffsetRight(va: nat, level: nat, borrowed: bool) {
    !borrowed || level != 4 || va / 0x80_0000_0000 % ENTRIES == 0
  }

  lemma AddressRight(tree: map<Path, nat>, va: nat, level: nat, borrowed: bool, address: nat)
    requires AskOk(tree, va, level, OffsetVa(va, borrowed), address)
    ensures address == WalkAddress(tree, va, level) <==> OffsetRight(va, level, borrowed)
  {
    OffsetBits(va);
    OffsetBits(0);
  }

  lemma StartRight(w: Walker, va: nat, borrowed: bool)
    requires w in Good() && Shaped(w.caches) && (StartLevel(w.caches, va) < 5 || [] in w.kernel.tree)
    ensures var level := StartLevel(w.caches, va);
      && PathTo(va, level) in w.kernel.tree
      && (StartAddress(w, va, OffsetVa(va, borrowed)) == WalkAddress(w.kernel.tree, va, level)
          <==> OffsetRight(va, level, borrowed))
  {
    StartAddressIs(w, va, OffsetVa(va, borrowed));
    AddressRight(w.kernel.tree, va, StartLevel(w.caches, va), borrowed, StartAddress(w, va, OffsetVa(va, borrowed)));
  }

  lemma LinesOk(tree: map<Path, nat>, c: Caches, level: nat, i: nat, v: nat)
    requires Shaped(c) && CachesOk(tree, c) && 2 <= level <= 5 && i < CacheSets(level) && v < CacheWays(level)
    ensures var row := CacheOf(c, level)[i];
      && LineOk(tree, row[v], level, i)
      && (forall u :: 0 <= u < |row| && u != v && row[u].valid && row[v].valid ==> row[u].tag != row[v].tag)
  {
    var rows := CacheOf(c, level);
    assert CacheOk(tree, rows, level);
    assert RowOk(tree, rows[i], level, i);
  }

  /** In every reachable state a valid line of the level k cache holds the base that the walk reaches
      below level k for every address with its index, and no cache row holds a tag twice. */
  lemma CachesAgree(events: seq<Event>, limit: nat, w: World, level: nat, i: nat, v: nat, va: nat)
    requires Reached(events, limit, w) && Shaped(w.walker.caches)
    requires 2 <= level <= 5 && i < CacheSets(level) && v < CacheWays(level)
    ensures var row := CacheOf(w.walker.caches, level)[i];
      row[v].valid ==>
        && (Index(va, level) == row[v].tag ==>
              PathTo(va, level - 1) in w.walker.kernel.tree &&
                row[v].data == w.walker.kernel.tree[PathTo(va, level - 1)])
        && (forall u :: 0 <= u < |row| && u != v && row[u].valid ==> row[u].tag != row[v].tag)
  {
    ReachedInv(events, limit, w);
    LinesOk(w.walker.kernel.tree, w.walker.caches, level, i, v);
  }

  /** A request from the read queue, after whatever hit, first asks for the entry that the full walk from the
      root reaches; one from the prefetch queue does so exactly when it does not start from the level 5 cache
      or bits 39 to 47 of its address are zero. */
  lemma StartsWhereTheWalkIs(events: seq<Event>, limit: nat, w: World, va: nat, pq: bool)
    requires Reached(events, limit, w) && Shaped(w.walker.caches)
    requires StartLevel(w.walker.caches, va) < 5 || [] in w.walker.kernel.tree
    ensures var level := StartLevel(w.walker.caches, va);
      && PathTo(va, level) in w.walker.kernel.tree
      && (StartAddress(w.walker, va, OffsetVa(va, pq)) == WalkAddress(w.walker.kernel.tree, va, level)
          <==> !pq || level != 4 || va / 0x80_0000_0000 % ENTRIES == 0)
  {
    ReachedInv(events, limit, w);
    StartRight(w.walker, va, pq);
  }

  /** Every address ever asked of memory is the entry address of the full walk, except exactly the first ones of
      requests from the prefetch queue that started from the level 5 cache with bits 39 to 47 not zero; and
      every reply is the translation in the tree. */
  lemma AsksAndRepliesRight(events: seq<Event>, limit: nat, w: World)
    requires Reached(events, limit, w)
    ensures forall i :: 0 <= i < |w.asks| ==>
      var a := w.asks[i];
      && 1 <= a.level <= 5
      && (a.address == WalkAddress(w.walker.kernel.tree, a.va, a.level)
          <==> !a.borrowed || a.level != 4 || a.va / 0x80_0000_0000 % ENTRIES == 0)
    ensures forall i :: 0 <= i < |w.replies| && w.replies[i].Translated? ==>
      Translation(w.walker.kernel.tree, w.replies[i].va) == [w.replies[i].data / PAGE]
  {
    ReachedInv(events, limit, w);
    var tree := w.walker.kernel.tree;
    forall i | 0 <= i < |w.asks|
      ensures 1 <= w.asks[i].level <= 5
      ensures w.asks[i].address == WalkAddress(tree, w.asks[i].va, w.asks[i].level)
        <==> OffsetRight(w.asks[i].va, w.asks[i].level, w.asks[i].borrowed)
    {
      assert NotedOk(tree, w.asks[i]);
      AddressRight(tree, w.asks[i].va, w.asks[i].level, w.asks[i].borrowed, w.asks[i].address);
    }
    forall i | 0 <= i < |w.replies| && w.replies[i].Translated?
      ensures Translation(tree, w.replies[i].va) == [w.replies[i].data / PAGE]
    {
      assert ReplyOk(tree, w.replies[i]);
    }
  }

  // ----- Every level is asked for, once and in order ----------------------------------------

  /** The questions of the walk in service so far: for the levels from where it started, down to the one it stands at
      or, once that is answered, the one above. */
  ghost predicate AskedDown(w: World) {
    w.walker.walk.Some? ==>
      var walk := w.walker.walk.value;
      && w.begun <= |w.asks|
      && |w.asks| - w.begun == walk.init - walk.level + One(!walk.returned)
      && LevelsFrom(w.asks[w.begun..], walk.va, walk.init)
  }

  /** These questions are for one address and for the levels from `top` down, one by one. */
  ghost predicate LevelsFrom(asks: seq<Ask>, va: nat, top: nat) {
    forall j :: 0 <= j < |asks| ==> asks[j].va == va && asks[j].level == top - j
  }

  /** An answer leaves the walk one level further down. */
  lemma AnswerLowers(w: Walker)
    requires Enabled(w, Answer)
    ensures Return(w).walk.Some? && Return(w).walk.value.returned
    ensures Return(w).walk.value.level == w.walk.value.level - 1
  {}

  lemma AskedMore(asks: seq<Ask>, begun: nat, ask: Ask, top: nat)
    requires begun <= |asks| && LevelsFrom(asks[begun..], ask.va, top) && ask.level == top - (|asks| - begun)
    ensures LevelsFrom((asks + [ask])[begun..], ask.va, top)
  {
    assert (asks + [ask])[begun..] == asks[begun..] + [ask];
  }

  lemma AskedStep(w: World, e: Event, limit: nat)
    requires WorldInv(w) && AskedDown(w) && Legal(e, limit)
    ensures AskedDown(Step(w, e, limit))
  {
    if Enabled(w.walker, e) {
      match e
      case Begin(va, pq, prefetch, cs) =>
        assert w.asks[|w.asks|..] == [];
        assert Step(w, e, limit).asks != w.asks ==>
          Step(w, e, limit).asks[|w.asks|..] == [Step(w, e, limit).asks[|w.asks|]];
      case Answer => AnswerLowers(w.walker);
      case Cycle(room, cs) =>
        var w' := Step(w, e, limit);
        if w'.walker.walk.Some? && !w'.walker.walk.value.returned {
          var walk := w'.walker.walk.value;
          AskedMore(w.asks, w.begun, Ask(walk.va, walk.level, false, walk.address), walk.init);
        }
    }
  }

  lemma {:induction false} AlwaysAskedDown(events: seq<Event>, limit: nat)
    requires forall i :: 0 <= i < |events| ==> Legal(events[i], limit)
    ensures AskedDown(Run(events, limit))
  {
    if events != [] {
      var before := events[..|events| - 1];
      AlwaysAskedDown(before, limit);
      ReachableInv(before, limit);
      AskedStep(Run(before, limit), events[|events| - 1], limit);
    }
  }

  /** When a walk replies without a page fault, it has asked for exactly the levels from where it started down to the
      last, once each and in that order. */
  lemma RepliesAfterAllLevels(events: seq<Event>, limit: nat, w: World, e: Event)
    requires Reached(events, limit, w) && Shaped(w.walker.caches) && Legal(e, limit) && e.Cycle? && Enabled(w.walker, e)
    requires FirstMissing(w.walker.kernel.tree, w.walker.walk.value.va, 4, w.walker.walk.value.level).None?
    requires Advance(w.walker, e.room, e.chances, limit).1.Translated?
    ensures var walk := w.walker.walk.value;
      w.begun <= |w.asks| && |w.asks| - w.begun == walk.init && LevelsFrom(w.asks[w.begun..], walk.va, walk.init)
  {
    AlwaysAskedDown(events, limit);
  }

  /** Until then a cycle without a fault asks for the level at which the walk stands, as soon as memory has room. */
  lemma AsksNext(events: seq<Event>, limit: nat, w: World, e: Event)
    requires Reached(events, limit, w) && Shaped(w.walker.caches) && Legal(e, limit) && e.Cycle? && Enabled(w.walker, e)
    requires FirstMissing(w.walker.kernel.tree, w.walker.walk.value.va, 4, w.walker.walk.value.level).None?
    requires w.walker.walk.value.level > 0
    ensures var w', walk := Step(w, e, limit), w.walker.walk.value;
      if e.room then
        && |w'.asks| == |w.asks| + 1
        && w'.asks[|w.asks|].va == walk.va && w'.asks[|w.asks|].level == walk.level
      else w'.asks == w.asks && w'.walker == w.walker
  {}

  /** A cycle gives a request up exactly when it is a prefetch for which a page is missing, and then it leaves the tree
      and the caches alone. */
  lemma DropsExactly(w: Walker, room: bool, cs: seq<Chance>, limit: nat)
    requires WalkerInv(w) && w.walk.Some? && w.walk.value.returned
    requires |cs| > 5 && forall i :: 0 <= i < |cs| ==> cs[i].log < 10
    ensures var (w', reply) := Advance(w, room, cs, limit);
      && (reply.Dropped? <==> w.walk.value.prefetch && Lacks(w.kernel.tree, w.walk.value.va, w.walk.value.level))
      && (reply.Dropped? ==> reply.va == w.walk.value.va && w' == w.(walk := None))
  {
    var missing := FirstMissing(w.kernel.tree, w.walk.value.va, 4, w.walk.value.level);
    assert missing.Some? ==> PathTo(w.walk.value.va, missing.value) !in w.kernel.tree;
  }

  /** A page of the walk is missing, from below the root down to this level. */
  ghost predicate Lacks(tree: map<Path, nat>, va: nat, level: nat) {
    exists l: nat {:trigger PathTo(va, l)} :: level <= l <= 4 && PathTo(va, l) !in tree
  }

  /** The data of a reply: the page, with the low bit set. */
  lemma ReplyBits(page: nat, va: nat)
    requires va != 0
    ensures ReplyData(page, va) / PAGE == page && ReplyData(page, va) % PAGE == 1
  {}

  // ----- What a walk teaches the caches -----------------------------------------------------

  /** Filling a row with a new tag does what an LRU set does: the most recent tags stay. */
  lemma FillRowRecent(row: seq<Line<nat>>, r: seq<Item<nat>>, tag: nat, data: nat)
    requires Represents(row, r) && |row| > 0 && WayOf(row, tag, 0) == |row|
    ensures Represents(FillRow(row, tag, data), ListFill(r, |row|, Item(tag, data)))
  {
    FillRefines(row, r, tag, data);
    assert FillRow(row, tag, data) == Lru.Fill(row, tag, data);
  }

  lemma FillRowHits(row: seq<Line<nat>>, tag: nat, data: nat, n: nat)
    requires Ordered(row, n) && |row| > 0
    ensures WayOf(FillRow(row, tag, data), tag, 0) < |row|
  {
    VictimFound(row, n);
    var way, row' := Victim(row), FillRow(row, tag, data);
    assert row'[way].valid && row'[way].tag == tag;
  }

  lemma LearnHits(tree: map<Path, nat>, c: Caches, va: nat, level: nat, init: nat)
    requires Shaped(c) && CachesOk(tree, c) && 2 <= level <= 5 && level <= init
    ensures CheckHit(FillCaches(c, tree, va, init), va, level).Some?
  {
    var rows, i := CacheOf(c, level), RowOf(va, level);
    assert CacheOk(tree, rows, level) && RowOk(tree, rows[i], level, i);
    var n: nat :| Ordered(rows[i], n);
    FillRowHits(rows[i], Index(va, level), BaseAt(tree, PathTo(va, level - 1)), n);
    assert CacheOf(FillCaches(c, tree, va, init), level) ==
      FillCache(rows, va, level, BaseAt(tree, PathTo(va, level - 1)));
  }

  /** After a reply without a fault, a request for the same page starts at the last level, unless the walk had found all
      it needed in the level 2 cache; every cache that had missed now has the address. */
  lemma ReplyTeaches(events: seq<Event>, limit: nat, w: World, e: Event, level: nat)
    requires Reached(events, limit, w) && Shaped(w.walker.caches) && Legal(e, limit) && e.Cycle? && Enabled(w.walker, e)
    requires Advance(w.walker, e.room, e.chances, limit).1.Translated?
    ensures var walk, caches := w.walker.walk.value, Step(w, e, limit).walker.caches;
      && (2 <= level <= 5 && level <= walk.init ==> CheckHit(caches, walk.va, level).Some?)
      && (walk.init >= 2 ==> StartLevel(caches, walk.va) == 1)
  {
    ReachedInv(events, limit, w);
    var walk, w' := w.walker.walk.value, Step(w, e, limit);
    StepGrows(w, e, limit);
    CachesGrow(w.walker.kernel.tree, w'.walker.kernel.tree, w.walker.caches);
    assert w'.walker.caches == FillCaches(w.walker.caches, w'.walker.kernel.tree, walk.va, walk.init);
    if 2 <= level <= 5 && level <= walk.init {
      LearnHits(w'.walker.kernel.tree, w.walker.caches, walk.va, level, walk.init);
    }
    if walk.init >= 2 {
      LearnHits(w'.walker.kernel.tree, w.walker.caches, walk.va, 2, walk.init);
    }
  }

  // ----- Exactly when the pages of the tree are different -----------------------------------

  /** The level of the first page that the event adds to the tree, if it services a page fault. */
  function FaultLevel(w: Walker, e: Event): (level: Option<nat>)
    requires Shaped(w.caches)
    ensures level.Some? ==> level.value <= 5
  {
    if !Enabled(w, e) then None else
    match e
    case Begin(va, _, _, _) => if StartLevel(w.caches, va) == 5 && [] !in w.kernel.tree then Some(5) else None
    case Answer => None
    case Cycle(_, _) =>
      if w.walk.value.prefetch then None else FirstMissing(w.kernel.tree, w.walk.value.va, 4, w.walk.value.level)
  }

  /** Memory has a page left for each one that the event adds. */
  predicate Fits(w: Walker, e: Event, limit: nat)
    requires Shaped(w.caches)
  {
    FaultLevel(w, e).Some? ==> w.kernel.memory.used + FaultLevel(w, e).value < limit
  }

  /** No page fault of the run finds memory exhausted. */
  ghost predicate Fitting(events: seq<Event>, limit: nat)
    requires forall i :: 0 <= i < |events| ==> Legal(events[i], limit)
  {
    events != [] ==>
      var before := events[..|events| - 1];
      Fitting(before, limit) && Fits(Run(before, limit).walker, events[|events| - 1], limit)
  }

  lemma IdleStart(va: nat)
    ensures StartLevel(IDLE.caches, va) == 5
  {
    assert forall level :: 2 <= level <= 5 ==> CheckHit(IDLE.caches, va, level) == None;
  }

  /** A faulting event adds the pages of the walk from the first missing level down. */
  lemma FaultingStep(w: World, e: Event, limit: nat)
    requires w.walker in Good() && Legal(e, limit) && FaultLevel(w.walker, e).Some?
    ensures var va := if e.Begin? then e.va else w.walker.walk.value.va;
      && EndsAt(w.walker.kernel.tree, va, FaultLevel(w.walker, e).value) && va < VA_SPACE
      && (e.Begin? || e.Cycle?)
      && Step(w, e, limit).walker.kernel == Fault(w.walker.kernel, va, FaultLevel(w.walker, e).value, e.chances, limit)
  {
    var va := if e.Begin? then e.va else w.walker.walk.value.va;
    assert PathTo(va, 5) == [];
    FoundMissing(w.walker.kernel.tree, va, FaultLevel(w.walker, e).value);
  }

  lemma QuietStep(w: World, e: Event, limit: nat)
    requires Shaped(w.walker.caches) && Legal(e, limit) && FaultLevel(w.walker, e).None?
    ensures Step(w, e, limit).walker.kernel == w.walker.kernel
  {}

  /** The tree only grows. */
  lemma StepGrows(w: World, e: Event, limit: nat)
    requires w.walker in Good() && Legal(e, limit)
    ensures TreeKept(w.walker, Step(w, e, limit).walker)
  {
    if FaultLevel(w.walker, e).Some? {
      FaultingStep(w, e, limit);
      var va := if e.Begin? then e.va else w.walker.walk.value.va;
      FaultServices(w.walker.kernel, va, FaultLevel(w.walker, e).value, e.chances, limit);
    } else {
      QuietStep(w, e, limit);
    }
  }

  lemma StepSound(w: World, e: Event, limit: nat)
    requires w.walker in Good() && w.walker.kernel in Kernels(limit) && Legal(e, limit) && Fits(w.walker, e, limit)
    ensures Step(w, e, limit).walker.kernel in Kernels(limit)
  {
    if FaultLevel(w.walker, e).Some? {
      FaultingStep(w, e, limit);
      var va := if e.Begin? then e.va else w.walker.walk.value.va;
      FaultKeeps(w.walker.kernel, va, FaultLevel(w.walker, e).value, e.chances, limit);
    } else {
      QuietStep(w, e, limit);
    }
  }

  lemma {:induction false} FittingSound(events: seq<Event>, limit: nat)
    requires (forall i :: 0 <= i < |events| ==> Legal(events[i], limit)) && Fitting(events, limit)
    ensures Run(events, limit).walker.kernel in Kernels(limit)
  {
    if events == [] {
      BootInv(limit);
    } else {
      var before := events[..|events| - 1];
      FittingSound(before, limit);
      ReachableInv(before, limit);
      StepSound(Run(before, limit), events[|events| - 1], limit);
    }
  }

  /** The page allocator is sound after every run, whether or not it had to swap. */
  lemma {:induction false} AllocatorSound(events: seq<Event>, limit: nat)
    requires limit > 0 && forall i :: 0 <= i < |events| ==> Legal(events[i], limit)
    ensures Inv(Run(events, limit).walker.kernel.memory, limit)
  {
    if events != [] {
      var before := events[..|events| - 1];
      var w, e := Run(before, limit), events[|events| - 1];
      AllocatorSound(before, limit);
      ReachableInv(before, limit);
      if FaultLevel(w.walker, e).Some? {
        FaultingStep(w, e, limit);
        var va := if e.Begin? then e.va else w.walker.walk.value.va;
        FaultAllocates(w.walker.kernel, va, FaultLevel(w.walker, e).value, e.chances, limit);
      } else {
        QuietStep(w, e, limit);
      }
    }
  }

  /** w is the walker after a run none of whose page faults finds memory exhausted. */
  ghost predicate ReachedFitting(events: seq<Event>, limit: nat, w: World) {
    Reached(events, limit, w) && Fitting(events, limit)
  }

  /** Without swaps all pages of the tree, of tables and of data, are different; so no two page table entries
      share a physical address. */
  lemma PagesApart(events: seq<Event>, limit: nat, w: World, p: Path, q: Path, i: nat, j: nat)
    requires ReachedFitting(events, limit, w) && p in w.walker.kernel.tree && q in w.walker.kernel.tree
    requires i < ENTRIES && j < ENTRIES
    ensures w.walker.kernel.tree[p] == w.walker.kernel.tree[q] ==> p == q
    ensures EntryAddress(w.walker.kernel.tree, p, i) == EntryAddress(w.walker.kernel.tree, q, j) ==> p == q && i == j
  {
    FittingSound(events, limit);
    EntriesApart(w.walker.kernel, limit, p, q, i, j);
  }

  /** Without swaps different data pages have different translations. */
  lemma TranslationsApart(events: seq<Event>, limit: nat, w: World, va: nat, va': nat)
    requires ReachedFitting(events, limit, w) && va < VA_SPACE && va' < VA_SPACE && va / PAGE != va' / PAGE
    ensures var tree := w.walker.kernel.tree;
      Translation(tree, va) == Translation(tree, va') ==> Translation(tree, va) == []
  {
    FittingSound(events, limit);
    IndexIsPath(va, va', 1);
    PageIndex(va);
    PageIndex(va');
    var p, p' := PathTo(va, 0), PathTo(va', 0);
    if p in w.walker.kernel.tree && p' in w.walker.kernel.tree {
      EntriesApart(w.walker.kernel, limit, p, p', 0, 0);
    }
  }

  /** Once two pages of the tree are the same, they stay so. */
  lemma AliasStays(w: Walker, w': Walker)
    requires TreeKept(w, w') && !PageTree.Distinct(w.kernel.tree)
    ensures !PageTree.Distinct(w'.kernel.tree)
  {
    var p, q :| p in w.kernel.tree && q in w.kernel.tree && w.kernel.tree[p] == w.kernel.tree[q] && p != q;
  }

  /** A fault of an event that finds too little memory makes two pages of the tree the same. */
  lemma UnfitAliases(w: World, e: Event, limit: nat)
    requires w.walker in Good() && w.walker.kernel in Kernels(limit) && Legal(e, limit) && limit > 0
    requires !Fits(w.walker, e, limit)
    ensures !PageTree.Distinct(Step(w, e, limit).walker.kernel.tree)
  {
    FaultingStep(w, e, limit);
    var va := if e.Begin? then e.va else w.walker.walk.value.va;
    FaultDistinct(w.walker.kernel, va, FaultLevel(w.walker, e).value, e.chances, limit);
  }

  /** All pages of the tree are different after a run exactly when no page fault of it found memory exhausted. */
  lemma {:induction false} PagesApartExactly(events: seq<Event>, limit: nat)
    requires limit > 0 && forall i :: 0 <= i < |events| ==> Legal(events[i], limit)
    ensures PageTree.Distinct(Run(events, limit).walker.kernel.tree) <==> Fitting(events, limit)
  {
    if Fitting(events, limit) {
      FittingSound(events, limit);
    } else {
      var before, e := events[..|events| - 1], events[|events| - 1];
      ReachableInv(before, limit);
      StepGrows(Run(before, limit), e, limit);
      if Fitting(before, limit) {
        FittingSound(before, limit);
        UnfitAliases(Run(before, limit), e, limit);
      } else {
        PagesApartExactly(before, limit);
        AliasStays(Run(before, limit).walker, Run(events, limit).walker);
      }
    }
  }

  // ----- A prefetch that asks for the wrong entry -------------------------------------------

  /** The first request of all builds the tree and is answered at once. */
  lemma FirstRequest(e: Event, limit: nat)
    requires e.Begin? && Legal(e, limit)
    ensures Run([e], limit) == Step(World(IDLE, [], [], 0), e, limit)
    ensures var w := Run([e], limit);
      && w.walker.walk.None? && w.asks == []
      && w.walker.caches == FillCaches(IDLE.caches, w.walker.kernel.tree, e.va, 5)
  {
    assert [e][..0] == [] && Run([], limit) == World(IDLE, [], [], 0);
    IdleStart(e.va);
  }

  /** A prefetch that hits the level 5 cache asks at level 4. */
  lemma PrefetchAsks(w: World, e: Event, limit: nat)
    requires e.Begin? && e.fromPrefetchQueue && Legal(e, limit) && w.walker.walk.None? && w.asks == []
    requires Shaped(w.walker.caches) && StartLevel(w.walker.caches, e.va) == 4
    ensures var w' := Step(w, e, limit);
      |w'.asks| == 1 && w'.asks[0].va == e.va && w'.asks[0].borrowed && w'.asks[0].level == 4
  {}

  /** The address that a prefetch asked for is wrong. */
  ghost predicate AskedWrong(w: World) {
    && |w.asks| == 1 && w.asks[0].borrowed && w.asks[0].level == 4
    && w.asks[0].address != WalkAddress(w.walker.kernel.tree, w.asks[0].va, 4)
  }

  /** The run is possible and ends with a wrong address. */
  ghost predicate GoesWrong(events: seq<Event>, limit: nat) {
    exists w :: Reached(events, limit, w) && AskedWrong(w)
  }

  lemma WrongAfter(events: seq<Event>, w: World, e: Event, limit: nat)
    requires Reached(events, limit, w) && Shaped(w.walker.caches) && w.walker.walk.None? && w.asks == []
    requires e.Begin? && e.fromPrefetchQueue && Legal(e, limit) && StartLevel(w.walker.caches, e.va) == 4
    requires e.va / 0x80_0000_0000 % ENTRIES != 0
    ensures GoesWrong(events + [e], limit)
  {
    PrefetchAsks(w, e, limit);
    RunMore(events, e, limit);
    var w' := Run(events + [e], limit);
    AsksAndRepliesRight(events + [e], limit, w');
    assert Reached(events + [e], limit, w') && AskedWrong(w');
  }

  /** After the first request of all, for the second page, a prefetch of the address that differs in bit 39 alone
      starts from the level 5 cache and asks for the wrong entry. */
  lemma PrefetchGoesWrong(first: Event, second: Event, limit: nat)
    requires first.Begin? && first.va == PAGE && Legal(first, limit)
    requires second.Begin? && second.va == PAGE + 0x80_0000_0000 && second.fromPrefetchQueue && Legal(second, limit)
    ensures GoesWrong([first] + [second], limit)
  {
    assert second.va / 0x80_0000_0000 == 1;
    var events := [first];
    var w := FirstThenHit(events, first, second.va, limit);
    WrongAfter(events, w, second, limit);
  }

  lemma FirstThenHit(events: seq<Event>, first: Event, va: nat, limit: nat) returns (w: World)
    requires first.Begin? && first.va == PAGE && Legal(first, limit) && events == [first]
    requires va == PAGE + 0x80_0000_0000
    ensures Reached(events, limit, w) && w.walker.walk.None? && w.asks == []
    ensures Shaped(w.walker.caches) && StartLevel(w.walker.caches, va) == 4
  {
    w := Run(events, limit);
    FirstRequest(first, limit);
    SecondStart(w.walker.kernel.tree, first.va, va);
  }

  lemma RunMore(events: seq<Event>, e: Event, limit: nat)
    requires Legal(e, limit) && forall i :: 0 <= i < |events| ==> Legal(events[i], limit)
    ensures var more := events + [e];
      && (forall i :: 0 <= i < |more| ==> Legal(more[i], limit))
      && Run(more, limit) == Step(Run(events, limit), e, limit)
  {
    assert (events + [e])[..|events|] == events;
  }

  lemma SecondStart(tree: map<Path, nat>, va: nat, va': nat)
    requires va == PAGE && va' == PAGE + 0x80_0000_0000
    ensures StartLevel(FillCaches(IDLE.caches, tree, va, 5), va') == 4
  {
    Indices(va, va');
    FreshHit(tree, va, va', 2);
    FreshHit(tree, va, va', 3);
    FreshHit(tree, va, va', 4);
    FreshHit(tree, va, va', 5);
  }

  lemma Indices(va: nat, va': nat)
    requires va == PAGE && va' == PAGE + 0x80_0000_0000
    ensures forall level :: 2 <= level <= 4 ==> Index(va', level) != Index(va, level)
    ensures Index(va', 5) == Index(va, 5)
  {
    assert Span(2) == 0x20_0000 && Span(3) == 0x4000_0000 && Span(4) == 0x80_0000_0000 && Span(5) == 0x1_0000_0000_0000;
  }

  /** The only line of a blank cache that has learned one address. */
  lemma OneLine(rows: Rows, va: nat, level: nat, data: nat)
    requires 2 <= level <= 5 && rows == BlankRows(level)
    ensures var rows', i := FillCache(rows, va, level, data), RowOf(va, level);
      && rows'[i][0].valid && rows'[i][0].tag == Index(va, level)
      && forall j, v :: 0 <= j < |rows'| && 0 <= v < |rows'[j]| && !(j == i && v == 0) ==> !rows'[j][v].valid
  {
    assert Victim(rows[RowOf(va, level)]) == 0;
  }

  /** A cache that has learned one address hits exactly the addresses with its index. */
  lemma FreshHit(tree: map<Path, nat>, va: nat, va': nat, level: nat)
    requires 2 <= level <= 5
    ensures var c := FillCaches(IDLE.caches, tree, va, 5);
      CheckHit(c, va', level).Some? <==> Index(va', level) == Index(va, level)
  {
    var data := BaseAt(tree, PathTo(va, level - 1));
    OneLine(BlankRows(level), va, level, data);
    assert CacheOf(FillCaches(IDLE.caches, tree, va, 5), level) == FillCache(BlankRows(level), va, level, data);
  }
}
