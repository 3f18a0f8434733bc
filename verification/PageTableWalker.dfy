/** The page table walker as the program runs it: two request queues, the MMU caches, the page tables and one
    request in service, updated step by step and proved equal to the state machine of module PageWalker. */
module PageTableWalker {
  import opened Common
  import opened Lru
  import opened PageAllocator
  import opened PageTree
  import opened PageWalker
  import opened Rings

  /** Places of either request queue. */
  const QUEUE_SIZE: nat := 16

  class PageTableWalker {
    const tables: PageTables
    /** The addresses of waiting requests; a removed entry is reset to address 0. */
    const rq: Ring
    const pq: Ring
    var caches: Caches
    var walk: Option<Walk>

    constructor (limit: nat)
      requires limit > 0
      ensures View() == IDLE && tables.memory.limit == limit && fresh(tables) && fresh(tables.memory)
      ensures Queues() && rq.contents == pq.contents == []
      ensures fresh(rq) && fresh(rq.place) && fresh(pq) && fresh(pq.place)
    {
      tables := new PageTables(limit);
      rq := new Ring(QUEUE_SIZE, 0);
      pq := new Ring(QUEUE_SIZE, 0);
      caches := Caches(BlankRows(2), BlankRows(3), BlankRows(4), BlankRows(5));
      walk := None;
    }

    ghost function View(): (w: Walker)
      reads this, tables, tables.memory
    {
      Walker(tables.View(), caches, walk)
    }

    ghost predicate Queues()
      reads this, rq, rq.place, pq, pq.place
    {
      && rq != pq && rq.place != pq.place && rq.Valid() && pq.Valid()
      && rq.place.Length == pq.place.Length == QUEUE_SIZE && rq.free == pq.free == 0
    }

    /** `add_rq`: the request waits, unless the queue is full. */
    method AddRq(va: nat) returns (added: bool)
      requires Queues() && va != 0
      modifies rq`tail, rq`contents, rq.place
      ensures Queues() && added == (|old(rq.contents)| < QUEUE_SIZE)
      ensures rq.contents == if added then old(rq.contents) + [va] else old(rq.contents)
    {
      added := Add(rq, va);
    }

    /** `add_pq`, likewise. */
    method AddPq(va: nat) returns (added: bool)
      requires Queues() && va != 0
      modifies pq`tail, pq`contents, pq.place
      ensures Queues() && added == (|old(pq.contents)| < QUEUE_SIZE)
      ensures pq.contents == if added then old(pq.contents) + [va] else old(pq.contents)
    {
      added := Add(pq, va);
    }

    method Add(queue: Ring, va: nat) returns (added: bool)
      requires queue.Valid() && va != queue.free
      modifies queue`tail, queue`contents, queue.place
      ensures queue.Valid() && added == (|old(queue.contents)| < queue.place.Length)
      ensures queue.contents == if added then old(queue.contents) + [va] else old(queue.contents)
    {
      added := queue.HasRoom();
      if added {
        queue.Push(va);
      }
    }

    /** `check_hit`: look through the ways of the set that the index selects. */
    method CheckCache(va: nat, level: nat) returns (hit: bool, base: nat)
      requires Shaped(caches) && 2 <= level <= 5
      ensures CheckHit(caches, va, level) == if hit then Some(base) else None
    {
      var row := CacheOf(caches, level)[RowOf(va, level)];
      var way := 0;
      while way < |row|
        invariant way <= |row| && WayOf(row, Index(va, level), 0) == WayOf(row, Index(va, level), way)
      {
        if row[way].valid && row[way].tag == Index(va, level) {
          return true, row[way].data;
        }
        way := way + 1;
      }
      return false, 0;
    }

    /** Ask all four caches; the lowest level that hits decides. */
    method FindStart(va: nat) returns (level: nat, base: nat)
      requires Shaped(caches)
      ensures level == StartLevel(caches, va)
      ensures level < 5 ==> CheckHit(caches, va, level + 1) == Some(base)
    {
      var hit5, base5 := CheckCache(va, 5);
      var hit4, base4 := CheckCache(va, 4);
      var hit3, base3 := CheckCache(va, 3);
      var hit2, base2 := CheckCache(va, 2);
      if hit2 {
        level, base := 1, base2;
      } else if hit3 {
        level, base := 2, base3;
      } else if hit4 {
        level, base := 3, base4;
      } else if hit5 {
        level, base := 4, base5;
      } else {
        level, base := 5, 0;
      }
    }

    /** Walk the tree from the top, and teach the caches that missed. */
    method FillMmuCaches(va: nat, init: nat)
      requires Shaped(caches)
      modifies this`caches
      ensures caches == FillCaches(old(caches), tables.tree, va, init)
    {
      if 5 <= init {
        var base := Lookup(PathTo(va, 4));
        caches := caches.(pscl5 := FillCache(caches.pscl5, va, 5, base));
      }
      if 4 <= init {
        var base := Lookup(PathTo(va, 3));
        caches := caches.(pscl4 := FillCache(caches.pscl4, va, 4, base));
      }
      if 3 <= init {
        var base := Lookup(PathTo(va, 2));
        caches := caches.(pscl3 := FillCache(caches.pscl3, va, 3, base));
      }
      if 2 <= init {
        var base := Lookup(PathTo(va, 1));
        caches := caches.(pscl2 := FillCache(caches.pscl2, va, 2, base));
      }
    }

    method Lookup(path: Path) returns (base: nat)
      ensures base == BaseAt(tables.tree, path)
    {
      base := if path in tables.tree then tables.tree[path] else NO_PAGE;
    }

    /** The walk is complete: fill the caches, reply, and be free again. */
    method Finish(va: nat, init: nat) returns (reply: Reply)
      requires Shaped(caches)
      modifies this
      ensures (View(), reply) == Complete(old(View()), tables.View(), va, init)
    {
      FillMmuCaches(va, init);
      var page := Lookup(PathTo(va, 0));
      reply := Translated(va, page * PAGE + if va != 0 then 1 else 0);
      walk := None;
    }

    /** The page allocator is sound and there is chance enough. */
    ghost predicate Sound(cs: seq<Chance>)
      reads tables, tables.memory
    {
      var limit := tables.memory.limit;
      limit > 0 && Inv(tables.memory.View(), limit) && |cs| > 5 && AllRich(cs, limit)
    }

    /** Serve a page fault and finish the walk. */
    method Repair(va: nat, init: nat, missing: nat, cs: seq<Chance>) returns (reply: Reply)
      requires Shaped(caches) && Sound(cs) && missing <= 5 && EndsAt(tables.tree, va, missing)
      modifies this, tables, tables.memory
      ensures (View(), reply) == Complete(old(View()),
                                          Fault(old(tables.View()), va, missing, cs, tables.memory.limit), va, init)
    {
      ghost var w := View();
      tables.HandlePageFault(va, missing, cs);
      CompleteSame(w, View(), tables.View(), va, init);
      reply := Finish(va, init);
    }

    /** If the request builds the tree, the tree is empty. */
    ghost predicate MayStart(va: nat, cs: seq<Chance>)
      reads this, tables, tables.memory
    {
      Shaped(caches) && Sound(cs) && ([] in tables.tree || EndsAt(tables.tree, va, 5))
    }

    /** `operate` without a request in service: the oldest of the read queue starts, else, when there is none, the
        oldest of the prefetch queue, which after a hit in the level 5 cache uses the offset of an entry of the
        read queue. */
    method BeginNext(prefetch: bool, cs: seq<Chance>) returns (reply: Reply)
      requires Queues() && rq.contents + pq.contents != [] && MayStart((rq.contents + pq.contents)[0], cs)
      modifies this, tables, tables.memory, rq`head, rq`contents, rq.place, pq`head, pq`contents, pq.place
      ensures Queues() && rq.contents + pq.contents == old(rq.contents + pq.contents)[1..]
      ensures var va, fromPq := old(rq.contents + pq.contents)[0], old(rq.contents) == [];
        (View(), reply) == Start(old(View()), va, OffsetVa(va, fromPq), prefetch, cs, tables.memory.limit)
    {
      var va, offsetVa := TakeNext();
      reply := NewRequest(va, offsetVa, prefetch, cs);
    }

    /** The request that starts next leaves its queue; with it comes the address whose offset is used
        after a hit in the level 5 cache. */
    method TakeNext() returns (va: nat, offsetVa: nat)
      requires Queues() && rq.contents + pq.contents != []
      modifies rq`head, rq`contents, rq.place, pq`head, pq`contents, pq.place
      ensures Queues() && rq.contents + pq.contents == old(rq.contents + pq.contents)[1..]
      ensures va == old(rq.contents + pq.contents)[0] && offsetVa == OffsetVa(va, old(rq.contents) == [])
    {
      va := rq.Peek();
      if va != 0 {
        offsetVa := va;
        rq.Pop();
      } else {
        QueuedHead(pq.place[..], 0, pq.head, pq.tail, pq.contents);
        QueuedNothing(rq.place[..], 0, rq.head, rq.tail, pq.head);
        offsetVa := rq.place[pq.head];
        va := pq.Peek();
        pq.Pop();
      }
    }

    /** A new request; the first one builds the tree. */
    method NewRequest(va: nat, offsetVa: nat, prefetch: bool, cs: seq<Chance>) returns (reply: Reply)
      requires MayStart(va, cs)
      modifies this, tables, tables.memory
      ensures (View(), reply) == Start(old(View()), va, offsetVa, prefetch, cs, tables.memory.limit)
    {
      var level, base := FindStart(va);
      if level == 5 && [] !in tables.tree {
        reply := Repair(va, 5, 5, cs);
      } else {
        if level == 5 {
          base := Lookup([]);
        }
        StartAsks(View(), va, offsetVa, prefetch, cs, tables.memory.limit, level, base);
        AskFirst(va, level, prefetch,
                 base * PAGE + 8 * (if level == 4 then Offset(offsetVa, 4) else Offset(va, level)));
        reply := NoReply;
      }
    }

    method AskFirst(va: nat, level: nat, prefetch: bool, address: nat)
      modifies this
      ensures View() == old(View()).(walk := Some(Walk(va, level, level, false, prefetch, address)))
    {
      walk := Some(Walk(va, level, level, false, prefetch, address));
    }

    /** `return_data`. */
    method ReturnData()
      requires walk.Some? && walk.value.level > 0
      modifies this
      ensures View() == Return(old(View()))
    {
      walk := Some(walk.value.(returned := true));
      walk := Some(walk.value.(level := walk.value.level - 1));
    }

    /** The first level, going down from the root to `level`, whose page is missing. */
    method FindMissing(va: nat, level: nat) returns (found: bool, missing: nat)
      requires level <= 4
      ensures FirstMissing(tables.tree, va, 4, level) == if found then Some(missing) else None
    {
      var l: nat := 5;
      while l > level
        invariant level <= l <= 5
        invariant l > level ==> FirstMissing(tables.tree, va, 4, level) == FirstMissing(tables.tree, va, l - 1, level)
        invariant l == level ==> FirstMissing(tables.tree, va, 4, level) == None
      {
        if PathTo(va, l - 1) !in tables.tree {
          return true, l - 1;
        }
        l := l - 1;
      }
      return false, 0;
    }

    /** `operate` with an answered request in service. */
    method Operate(room: bool, cs: seq<Chance>) returns (reply: Reply)
      requires Shaped(caches) && Sound(cs) && Closed(tables.tree) && [] in tables.tree
      requires walk.Some? && walk.value.level < 5
      modifies this, tables, tables.memory
      ensures (View(), reply) == Advance(old(View()), room, cs, tables.memory.limit)
    {
      var request := walk.value;
      var found, missing := FindMissing(request.va, request.level);
      if found {
        if request.prefetch {
          walk := None;
          return Dropped(request.va);
        }
        WalkMissing(tables.tree, request.va, request.level, missing);
        reply := Repair(request.va, request.init, missing, cs);
      } else if request.level == 0 {
        reply := Finish(request.va, request.init);
      } else {
        reply := NoReply;
        if room {
          AskNext(request);
        }
      }
    }

    /** Ask for the entry of the next level. */
    method AskNext(request: Walk)
      requires 1 <= request.level <= 5
      modifies this
      ensures View() == old(View()).(walk :=
        Some(request.(returned := false, address := WalkAddress(tables.tree, request.va, request.level))))
    {
      var base := Lookup(PathTo(request.va, request.level));
      walk := Some(request.(returned := false, address := base * PAGE + 8 * Offset(request.va, request.level)));
    }
  }

  // ----- The steps can always run -----------------------------------------------------------

  lemma CompleteSame(w: Walker, w': Walker, kernel: Kernel, va: nat, init: nat)
    requires Shaped(w.caches) && w.caches == w'.caches
    ensures Complete(w, kernel, va, init) == Complete(w', kernel, va, init)
  {}

  lemma StartAsks(w: Walker, va: nat, offsetVa: nat, prefetch: bool, cs: seq<Chance>, limit: nat, level: nat, base: nat)
    requires Shaped(w.caches) && |cs| > 5 && forall i :: 0 <= i < |cs| ==> cs[i].log < 10
    requires level == StartLevel(w.caches, va) && (level < 5 || [] in w.kernel.tree)
    requires if level < 5 then CheckHit(w.caches, va, level + 1) == Some(base) else base == BaseAt(w.kernel.tree, [])
    ensures var address := base * PAGE + 8 * (if level == 4 then Offset(offsetVa, 4) else Offset(va, level));
      Start(w, va, offsetVa, prefetch, cs, limit) ==
        (w.(walk := Some(Walk(va, level, level, false, prefetch, address))), NoReply)
  {}

  lemma WalkMissing(tree: map<Path, nat>, va: nat, level: nat, missing: nat)
    requires Closed(tree) && [] in tree && level <= 4 && FirstMissing(tree, va, 4, level) == Some(missing)
    ensures EndsAt(tree, va, missing)
  {
    assert PathTo(va, 5) == [];
    FoundMissing(tree, va, missing);
  }

  /** In every reachable state each enabled step is ready to run: what the methods require of the caches, of the
      allocator and of the tree holds. */
  lemma StepsReady(events: seq<Event>, limit: nat, w: World, e: Event)
    requires Reached(events, limit, w) && limit > 0 && Legal(e, limit) && Enabled(w.walker, e)
    ensures Shaped(w.walker.caches) && Inv(w.walker.kernel.memory, limit) && Closed(w.walker.kernel.tree)
    ensures e.Begin? ==> [] in w.walker.kernel.tree || EndsAt(w.walker.kernel.tree, e.va, 5)
    ensures e.Cycle? ==> [] in w.walker.kernel.tree && w.walker.walk.value.level < 5
  {
    ReachedInv(events, limit, w);
    AllocatorSound(events, limit);
    if e.Begin? && [] !in w.walker.kernel.tree {
      assert PathTo(e.va, 5) == [];
      FoundMissing(w.walker.kernel.tree, e.va, 5);
    }
  }
}
