/** The two-level branch target buffer.

    A level is a table of LRU sets, found by hashing the branch address and searched by a tag.  The
    main result is that a level agrees with a plain map: whatever it has been through, a hit returns
    the last target filled for the key that the address stands for, and a lookup hits exactly when
    fewer other keys of the same set than there are ways were touched since. */
module BaselineBtb {
  import opened Bits
  import opened Lru
  import opened MicroCompression

  datatype Level = L1 | L2

  function Sets(level: Level): nat {
    if level.L1? then 64 else 2048
  }

  function Ways(level: Level): nat {
    if level.L1? then 2 else 4
  }

  // ----- Address hashing --------------------------------------------------------------------

  const BIT14: nat := 16384

  function GetTag(address: nat, level: Level): nat {
    var instruction := address / 4;
    if level.L1? then instruction / 64 else instruction % 0x4000_0000
  }

  function GetSet(address: nat, level: Level): (s: nat)
    ensures s < Sets(level)
  {
    var instruction := address / 4;
    if level.L1? then instruction % 64 else
    Xor((instruction / BIT14) % BIT14, instruction % BIT14) % 2048
  }

  /** What a level can tell apart: all but the low two bits of the address in L1, and the thirty bits
      above those in L2. */
  function Key(address: nat, level: Level): nat {
    if level.L1? then address / 4 else (address / 4) % 0x4000_0000
  }

  /** The set and the tag together determine the key, and the key determines both. */
  lemma KeyIsSetAndTag(a: nat, b: nat, level: Level)
    ensures Key(a, level) == Key(b, level) <==>
      GetSet(a, level) == GetSet(b, level) && GetTag(a, level) == GetTag(b, level)
  {
    if level.L2? {
      TagHasHash(a / 4);
      TagHasHash(b / 4);
    }
  }

  /** The hashed L2 set looks only at bits that the tag keeps. */
  lemma TagHasHash(instruction: nat)
    ensures instruction % BIT14 == instruction % 0x4000_0000 % BIT14
    ensures (instruction / BIT14) % BIT14 == (instruction % 0x4000_0000 / BIT14) % BIT14
  {}

  /** Bit k of the second level's set is made of bits k and k + 14 of the instruction address. */
  lemma SetBit(address: nat, k: nat)
    ensures Bit(GetSet(address, L2), k) ==
      if k < 11 then (Bit(address / 4, k) + Bit(address / 4, k + 14)) % 2 else 0
  {
    var x := address / 4;
    HalvesBit(x, k);
    Widths();
    assert Pow2(11) == 2048 by { PowSum(7, 4); assert Pow2(4) == 16; }
    LowBit(Xor((x / 16384) % 16384, x % 16384), 11, GetSet(address, L2), k);
  }

  // ----- A level over its whole history -----------------------------------------------------

  datatype Event = Fill(trigger: nat, target: nat) | Hit(address: nat)

  type Table = seq<seq<Line<nat>>>

  predicate Shaped(level: Level, table: Table) {
    |table| == Sets(level) && forall i :: 0 <= i < |table| ==> |table[i]| == Ways(level)
  }

  function EmptyTable(level: Level): Table {
    seq(Sets(level), _ => Blank(Ways(level), 0))
  }

  function Step(level: Level, table: Table, e: Event): (table': Table)
    requires Shaped(level, table)
    ensures Shaped(level, table')
  {
    match e
    case Fill(trigger, target) =>
      var i := GetSet(trigger, level);
      table[i := Lru.Fill(table[i], GetTag(trigger, level), target)]
    case Hit(address) =>
      var i := GetSet(address, level);
      table[i := Touch(table[i], GetTag(address, level))]
  }

  function Run(level: Level, events: seq<Event>): (table: Table)
    ensures Shaped(level, table)
  {
    if events == [] then EmptyTable(level) else
    Step(level, Run(level, events[..|events| - 1]), events[|events| - 1])
  }

  /** Way of an address in its set, or the number of ways. */
  function HitWay(level: Level, table: Table, address: nat): nat
    requires Shaped(level, table)
  {
    WayOf(table[GetSet(address, level)], GetTag(address, level), 0)
  }

  // ----- One set at a time ------------------------------------------------------------------

  /** The fills and touches that fall into one set. */
  function SetOps(level: Level, events: seq<Event>, i: nat): (ops: seq<Op<nat>>) {
    if events == [] then [] else
    var ops := SetOps(level, events[..|events| - 1], i);
    match events[|events| - 1]
    case Fill(trigger, target) =>
      if GetSet(trigger, level) == i then ops + [Store(GetTag(trigger, level), target)] else ops
    case Hit(address) => if GetSet(address, level) == i then ops + [Use(GetTag(address, level))] else ops
  }

  /** Every set evolves by itself. */
  lemma {:induction false} RunIsPerSet(level: Level, events: seq<Event>, i: nat)
    requires i < Sets(level)
    ensures Run(level, events)[i] == RunSet(Ways(level), 0, SetOps(level, events, i))
  {
    if events != [] {
      var before := events[..|events| - 1];
      RunIsPerSet(level, before, i);
      var ops, ops' := SetOps(level, before, i), SetOps(level, events, i);
      if ops' != ops {
        assert ops'[..|ops'| - 1] == ops;
      }
    }
  }

  /** In every reachable table no set holds a tag twice, and every victim search succeeds. */
  lemma SetsSound(level: Level, events: seq<Event>, i: nat)
    requires i < Sets(level)
    ensures var s := Run(level, events)[i];
      && |s| == Ways(level) && Victim(s) < |s|
      && Represents(s, RunList(Ways(level), SetOps(level, events, i)))
      && forall v, w :: 0 <= v < w < |s| && s[v].valid && s[w].valid ==> s[v].tag != s[w].tag
  {
    RunIsPerSet(level, events, i);
    var r := RunList(Ways(level), SetOps(level, events, i));
    RunRefines(Ways(level), 0, SetOps(level, events, i));
    VictimFound(Run(level, events)[i], |r|);
    OneLinePerTag(Run(level, events)[i], r);
  }

  lemma OneLinePerTag(s: seq<Line<nat>>, r: seq<Item<nat>>)
    requires Represents(s, r)
    ensures forall v, w :: 0 <= v < w < |s| && s[v].valid && s[w].valid ==> s[v].tag != s[w].tag
  {
    forall v, w | 0 <= v < w < |s| && s[v].valid && s[w].valid ensures s[v].tag != s[w].tag {
      assert w < |r| && s[v].lru != s[w].lru;
      assert r[s[v].lru].tag == s[v].tag && r[s[w].lru].tag == s[w].tag;
    }
  }

  // ----- The plain map ----------------------------------------------------------------------

  /** The target of the last fill for a key, if there was one. */
  function LastTarget(level: Level, events: seq<Event>, key: nat): (target: seq<nat>) {
    if events == [] then [] else
    var before := events[..|events| - 1];
    match events[|events| - 1]
    case Fill(trigger, target) => if Key(trigger, level) == key then [target] else LastTarget(level, before, key)
    case Hit(_) => LastTarget(level, before, key)
  }

  lemma {:induction false} LastIsStored(level: Level, events: seq<Event>, address: nat)
    ensures LastTarget(level, events, Key(address, level)) ==
      LastStore(SetOps(level, events, GetSet(address, level)), GetTag(address, level))
  {
    if events != [] {
      var before := events[..|events| - 1];
      LastIsStored(level, before, address);
      var i := GetSet(address, level);
      var ops, ops' := SetOps(level, before, i), SetOps(level, events, i);
      if ops' != ops {
        assert ops'[..|ops'| - 1] == ops;
      }
      if events[|events| - 1].Fill? {
        KeyIsSetAndTag(events[|events| - 1].trigger, address, level);
      }
    }
  }

  /** The touches that reached a line of the set of this address, in order. */
  function Touches(level: Level, events: seq<Event>, address: nat): seq<Item<nat>> {
    Accesses(Ways(level), SetOps(level, events, GetSet(address, level)))
  }

  /** A level agrees with a plain map after every history: a hit returns the last target filled for
      the key, and a lookup hits exactly when the key was filled and fewer other tags of its set than
      there are ways were touched since it was. */
  lemma AgreesWithMap(level: Level, events: seq<Event>, address: nat)
    ensures var table := Run(level, events);
      var way := HitWay(level, table, address);
      var target := LastTarget(level, events, Key(address, level));
      && (way < Ways(level) ==> target == [table[GetSet(address, level)][way].data])
      && (way < Ways(level) <==>
           target != [] && |Since(Touches(level, events, address), GetTag(address, level))| < Ways(level))
  {
    var ops := SetOps(level, events, GetSet(address, level));
    RunIsPerSet(level, events, GetSet(address, level));
    HitsExactly(Ways(level), 0, ops, GetTag(address, level));
    LatestIsStored(Ways(level), ops, GetTag(address, level));
    LastIsStored(level, events, address);
  }

  /** Immediately after a fill the address hits, with its target. */
  lemma FillThenHit(level: Level, events: seq<Event>, trigger: nat, target: nat)
    ensures var table := Run(level, events + [Fill(trigger, target)]);
      var way := HitWay(level, table, trigger);
      way < Ways(level) && table[GetSet(trigger, level)][way].data == target
  {
    var events' := events + [Fill(trigger, target)];
    assert events'[..|events'| - 1] == events;
    AgreesWithMap(level, events', trigger);
    var ops := SetOps(level, events, GetSet(trigger, level));
    assert (ops + [Store(GetTag(trigger, level), target)])[..|ops|] == ops;
  }

  // ----- The buffer as the program runs it --------------------------------------------------

  class BtbTable {
    const level: Level
    const sets: seq<CacheSet<nat>>
    ghost var history: seq<Event>

    constructor (level: Level)
      ensures Valid() && history == [] && this.level == level && fresh(Repr())
    {
      this.level := level;
      history := [];
      var all: seq<CacheSet<nat>> := [];
      while |all| < Sets(level)
        invariant |all| <= Sets(level)
        invariant forall i :: 0 <= i < |all| ==> fresh(all[i].block) && all[i].block[..] == Blank(Ways(level), 0)
        invariant forall i, j :: 0 <= i < j < |all| ==> all[i].block != all[j].block
      {
        var one := new CacheSet<nat>(Ways(level), 0);
        all := all + [one];
      }
      sets := all;
    }

    ghost function Repr(): set<object>
    {
      set i | 0 <= i < |sets| :: sets[i].block
    }

    ghost predicate Valid()
      reads this, Repr()
    {
      && |sets| == Sets(level)
      && (forall i, j :: 0 <= i < j < |sets| ==> sets[i].block != sets[j].block)
      && (forall i :: 0 <= i < |sets| ==> sets[i].block[..] == Run(level, history)[i])
    }

    method GetWay(address: nat) returns (way: nat)
      requires Valid()
      ensures way == HitWay(level, Run(level, history), address)
    {
      way := sets[GetSet(address, level)].GetWay(GetTag(address, level));
    }

    /** `update_replacement_state` of a line that hit. */
    method Promote(address: nat, way: nat)
      requires Valid() && way == HitWay(level, Run(level, history), address) < Ways(level)
      modifies this`history, Repr()
      ensures Valid() && history == old(history) + [Hit(address)]
    {
      ghost var i := GetSet(address, level);
      SetsSound(level, history, i);
      sets[GetSet(address, level)].LruUpdate(way);
      history := history + [Hit(address)];
      assert history[..|history| - 1] == old(history);
    }

    /** One level's part of `fill_btb`. */
    method Fill(trigger: nat, target: nat)
      requires Valid()
      modifies this`history, Repr()
      ensures Valid() && history == old(history) + [Event.Fill(trigger, target)]
    {
      ghost var i := GetSet(trigger, level);
      SetsSound(level, history, i);
      sets[GetSet(trigger, level)].FillBlock(GetTag(trigger, level), target,
                                             RunList(Ways(level), SetOps(level, history, i)));
      history := history + [Event.Fill(trigger, target)];
      assert history[..|history| - 1] == old(history);
    }

    /** A lookup returns the last target filled for the key, when the key is still in the table. */
    method Target(address: nat) returns (hit: bool, target: nat)
      requires Valid()
      ensures hit <==> HitWay(level, Run(level, history), address) < Ways(level)
      ensures hit ==> LastTarget(level, history, Key(address, level)) == [target]
    {
      AgreesWithMap(level, history, address);
      SetsSound(level, history, GetSet(address, level));
      var way := GetWay(address);
      hit := way < Ways(level);
      target := if hit then sets[GetSet(address, level)].block[way].data else 0;
    }
  }

  class Btb {
    const l1: BtbTable
    const l2: BtbTable

    constructor ()
      ensures Valid() && l1.history == [] && l2.history == []
      ensures fresh(l1) && fresh(l2) && fresh(l1.Repr()) && fresh(l2.Repr())
    {
      l1 := new BtbTable(L1);
      l2 := new BtbTable(L2);
    }

    ghost predicate Valid()
      reads l1, l2, l1.Repr(), l2.Repr()
    {
      l1.Valid() && l2.Valid() && l1.level.L1? && l2.level.L2? && l1.Repr() !! l2.Repr()
    }

    /** `fill_btb`, into either level or both. */
    method FillBtb(trigger: nat, target: nat, toL1: bool, toL2: bool)
      requires Valid()
      modifies l1`history, l2`history, l1.Repr(), l2.Repr()
      ensures Valid()
      ensures l1.history == if toL1 then old(l1.history) + [Event.Fill(trigger, target)] else old(l1.history)
      ensures l2.history == if toL2 then old(l2.history) + [Event.Fill(trigger, target)] else old(l2.history)
    {
      if toL1 {
        l1.Fill(trigger, target);
      }
      if toL2 {
        l2.Fill(trigger, target);
      }
    }
  }
}
