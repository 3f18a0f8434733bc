/** A set of cache lines under least-recently-used replacement.

    `CacheSet` is the structure the program updates in place.  The main results: the victim search
    always succeeds, the `lru` fields order the lines by recency, a set of w ways holds exactly the
    w most recently touched distinct tags, and it is included in a set of w + 1 ways. */
module Lru {

  datatype Line<T> = Line(valid: bool, tag: nat, data: T, lru: nat)

  /** A tag and what is stored under it. */
  datatype Item<T> = Item(tag: nat, data: T)

  // ----- One set of lines -------------------------------------------------------------------

  /** First line from n on that is not valid; |s| if none. */
  function FirstInvalid<T>(s: seq<Line<T>>, n: nat): (i: nat)
    requires n <= |s|
    ensures n <= i <= |s| && (i < |s| ==> !s[i].valid) && forall j :: n <= j < i ==> s[j].valid
    decreases |s| - n
  {
    if n == |s| || !s[n].valid then n else FirstInvalid(s, n + 1)
  }

  /** First line from n on with this recency; |s| if none. */
  function FirstAged<T>(s: seq<Line<T>>, lru: int, n: nat): (i: nat)
    requires n <= |s|
    ensures n <= i <= |s| && (i < |s| ==> s[i].lru == lru) && forall j :: n <= j < i ==> s[j].lru != lru
    decreases |s| - n
  {
    if n == |s| || s[n].lru == lru then n else FirstAged(s, lru, n + 1)
  }

  /** First valid line from n on with this tag; |s| if none. */
  function WayOf<T>(s: seq<Line<T>>, tag: nat, n: nat): (i: nat)
    requires n <= |s|
    ensures n <= i <= |s| && (i < |s| ==> s[i].valid && s[i].tag == tag)
    ensures forall j :: n <= j < i ==> !(s[j].valid && s[j].tag == tag)
    decreases |s| - n
  {
    if n == |s| || (s[n].valid && s[n].tag == tag) then n else WayOf(s, tag, n + 1)
  }

  /** The way to replace: an invalid one first, else the least recently used; |s| if the search fails. */
  function Victim<T>(s: seq<Line<T>>): (way: nat)
    ensures way <= |s|
  {
    var i := FirstInvalid(s, 0);
    if i < |s| then i else FirstAged(s, |s| - 1, 0)
  }

  function Promote<T>(s: seq<Line<T>>, way: nat): (s': seq<Line<T>>)
    requires way < |s|
    ensures |s'| == |s|
  {
    seq(|s|, i requires 0 <= i < |s| =>
      if i == way then s[i].(lru := 0) else if s[i].lru < s[way].lru then s[i].(lru := s[i].lru + 1) else s[i])
  }

  function WayFor<T>(s: seq<Line<T>>, tag: nat): (way: nat)
    ensures way <= |s|
  {
    var hit := WayOf(s, tag, 0);
    if hit < |s| then hit else Victim(s)
  }

  /** Store data under a tag, over the old line of that tag or over a victim. */
  function Fill<T>(s: seq<Line<T>>, tag: nat, data: T): (s': seq<Line<T>>)
    ensures |s'| == |s|
  {
    var way := WayFor(s, tag);
    if way < |s| then Promote(s, way)[way := Line(true, tag, data, 0)] else s
  }

  /** A hit promotes its line; a miss changes nothing. */
  function Touch<T>(s: seq<Line<T>>, tag: nat): (s': seq<Line<T>>)
    ensures |s'| == |s|
  {
    var hit := WayOf(s, tag, 0);
    if hit < |s| then Promote(s, hit) else s
  }

  /** The initial set: nothing valid, and recency equal to the way number. */
  function Blank<T>(ways: nat, data: T): seq<Line<T>> {
    seq(ways, i requires i >= 0 => Line(false, 0, data, i))
  }

  class CacheSet<T> {
    const block: array<Line<T>>

    constructor (ways: nat, data: T)
      ensures fresh(block) && block[..] == Blank(ways, data)
    {
      block := new Line<T>[ways](i requires i >= 0 => Line(false, 0, data, i));
    }

    method GetWay(tag: nat) returns (way: nat)
      ensures way == WayOf(block[..], tag, 0)
    {
      way := 0;
      while way < block.Length
        invariant way <= block.Length && WayOf(block[..], tag, 0) == WayOf(block[..], tag, way)
      {
        if block[way].valid && block[way].tag == tag {
          return;
        }
        way := way + 1;
      }
    }

    /** `lru_victim`: its failure branch is unreachable while recencies stay ordered. */
    method LruVictim(ghost n: nat) returns (way: nat)
      requires Ordered(block[..], n) && block.Length > 0
      ensures way == Victim(block[..]) < block.Length
    {
      way := 0;
      VictimFound(block[..], n);
      while way < block.Length
        invariant way <= block.Length && FirstInvalid(block[..], 0) == FirstInvalid(block[..], way)
      {
        if !block[way].valid {
          break;
        }
        way := way + 1;
      }
      if way == block.Length {
        way := 0;
        while way < block.Length
          invariant way <= block.Length
          invariant FirstAged(block[..], block.Length - 1, 0) == FirstAged(block[..], block.Length - 1, way)
        {
          if block[way].lru == block.Length - 1 {
            break;
          }
          way := way + 1;
        }
      }
      assert way != block.Length;
    }

    method LruUpdate(way: nat)
      requires way < block.Length
      modifies block
      ensures block[..] == Promote(old(block[..]), way)
    {
      ghost var was := block[..];
      var i := 0;
      while i < block.Length
        invariant i <= block.Length && block[way] == was[way]
        invariant forall j :: 0 <= j < block.Length ==>
          block[j] == if j < i && was[j].lru < was[way].lru then was[j].(lru := was[j].lru + 1) else was[j]
      {
        if block[i].lru < block[way].lru {
          block[i] := block[i].(lru := block[i].lru + 1);
        }
        i := i + 1;
      }
      block[way] := block[way].(lru := 0);
    }

    /** Overwrite or replace, then promote. */
    method FillBlock(tag: nat, data: T, ghost r: seq<Item<T>>)
      requires Represents(block[..], r) && block.Length > 0
      modifies block
      ensures block[..] == Fill(old(block[..]), tag, data)
    {
      var way := GetWay(tag);
      if way == block.Length {
        way := LruVictim(|r|);
      }
      LruUpdate(way);
      block[way] := block[way].(valid := true);
      block[way] := block[way].(tag := tag);
      block[way] := block[way].(data := data);
    }
  }

  // ----- Recency lists ----------------------------------------------------------------------

  predicate Distinct<T>(r: seq<Item<T>>) {
    forall i, j :: 0 <= i < j < |r| ==> r[i].tag != r[j].tag
  }

  predicate Has<T>(r: seq<Item<T>>, tag: nat) {
    exists i :: 0 <= i < |r| && r[i].tag == tag
  }

  /** First position from n on with this tag; |r| if there is none. */
  function PositionFrom<T>(r: seq<Item<T>>, tag: nat, n: nat): (i: nat)
    requires n <= |r|
    ensures n <= i <= |r| && (i < |r| ==> r[i].tag == tag) && forall j :: n <= j < i ==> r[j].tag != tag
    decreases |r| - n
  {
    if n == |r| || r[n].tag == tag then n else PositionFrom(r, tag, n + 1)
  }

  function Position<T>(r: seq<Item<T>>, tag: nat): (i: nat)
    ensures i <= |r|
  {
    PositionFrom(r, tag, 0)
  }

  /** Move position p to the front, as `item`; position |r| is where a new item comes from. */
  function Raise<T>(r: seq<Item<T>>, p: nat, item: Item<T>): (r': seq<Item<T>>)
    requires p <= |r|
    ensures |r'| == if p < |r| then |r| else |r| + 1
  {
    seq(if p < |r| then |r| else |r| + 1, q requires 0 <= q < (if p < |r| then |r| else |r| + 1) =>
      if q == 0 then item else r[if q <= p then q - 1 else q])
  }

  /** The item comes to the front, in place of the one of its tag if there is one. */
  function ToFront<T>(r: seq<Item<T>>, item: Item<T>): (r': seq<Item<T>>) {
    Raise(r, Position(r, item.tag), item)
  }

  function Front<T>(r: seq<Item<T>>, ways: nat): (r': seq<Item<T>>)
    ensures |r'| <= ways && |r'| <= |r|
  {
    if |r| <= ways then r else r[..ways]
  }

  function ListFill<T>(r: seq<Item<T>>, ways: nat, item: Item<T>): seq<Item<T>> {
    Front(ToFront(r, item), ways)
  }

  function ListTouch<T>(r: seq<Item<T>>, tag: nat): seq<Item<T>> {
    var i := Position(r, tag);
    if i < |r| then ToFront(r, r[i]) else r
  }

  /** The first n lines are valid and their recencies are a permutation of 0 .. n - 1; the lines
      after them are as in the initial state. */
  ghost predicate Ordered<T>(s: seq<Line<T>>, n: nat) {
    && n <= |s|
    && (forall i :: 0 <= i < n ==> s[i].valid && s[i].lru < n)
    && (forall i :: n <= i < |s| ==> !s[i].valid && s[i].lru == i)
    && (forall i, j :: 0 <= i < j < n ==> s[i].lru != s[j].lru)
    && (forall p :: 0 <= p < n ==> FirstAged(s, p, 0) < n)
  }

  /** r lists the valid lines of s, the most recently used first. */
  ghost predicate Represents<T>(s: seq<Line<T>>, r: seq<Item<T>>) {
    && Distinct(r) && Ordered(s, |r|)
    && forall i :: 0 <= i < |r| ==> r[s[i].lru] == Item(s[i].tag, s[i].data)
  }

  /** The victim search never fails: it finds the first free way, or the least recently used one. */
  lemma VictimFound<T>(s: seq<Line<T>>, n: nat)
    requires Ordered(s, n) && |s| > 0
    ensures Victim(s) < |s|
    ensures if n < |s| then Victim(s) == n else s[Victim(s)].lru == |s| - 1
  {
    if n == |s| {
      assert FirstAged(s, n - 1, 0) < n;
    } else {
      assert !s[n].valid;
    }
  }

  /** The line that is the p-th most recently used, for a position of the list. */
  lemma LineAt<T>(s: seq<Line<T>>, r: seq<Item<T>>, p: nat) returns (i: nat)
    requires Represents(s, r) && p < |r|
    ensures i < |r| && s[i].lru == p
  {
    i := FirstAged(s, p, 0);
  }

  lemma PromoteOrdered<T>(s: seq<Line<T>>, n: nat, way: nat, item: Item<T>, s': seq<Line<T>>)
    requires Ordered(s, n) && way < |s| && way <= n
    requires s' == Promote(s, way)[way := Line(true, item.tag, item.data, 0)]
    ensures s[way].lru <= n && Ordered(s', if s[way].lru < n then n else n + 1)
  {
    var p := s[way].lru;
    var n' := if p < n then n else n + 1;
    assert way < n' && forall i :: 0 <= i < n && i != way ==> s[i].lru != p;
    forall q | 0 <= q < n' ensures FirstAged(s', q, 0) < n' {
      if q == 0 {
        assert s'[way].lru == q;
      } else {
        var i := FirstAged(s, if q <= p then q - 1 else q, 0);
        assert s'[i].lru == q;
      }
    }
  }

  /** Promoting a line, and giving it new contents, raises its item in the list. */
  lemma PromoteRefines<T>(s: seq<Line<T>>, r: seq<Item<T>>, way: nat, item: Item<T>)
    requires Represents(s, r) && way < |s| && way <= |r|
    requires forall p :: 0 <= p < |r| && r[p].tag == item.tag ==> p == s[way].lru
    ensures s[way].lru <= |r|
    ensures Represents(Promote(s, way)[way := Line(true, item.tag, item.data, 0)], Raise(r, s[way].lru, item))
  {
    PromoteOrdered(s, |r|, way, item, Promote(s, way)[way := Line(true, item.tag, item.data, 0)]);
  }

  /** A tag is found in the lines exactly when it is in the list, with the same data. */
  lemma WayOfPosition<T>(s: seq<Line<T>>, r: seq<Item<T>>, tag: nat)
    requires Represents(s, r)
    ensures WayOf(s, tag, 0) < |s| <==> Position(r, tag) < |r|
    ensures WayOf(s, tag, 0) < |s| ==>
      && WayOf(s, tag, 0) < |r| && s[WayOf(s, tag, 0)].lru == Position(r, tag)
      && r[Position(r, tag)] == Item(tag, s[WayOf(s, tag, 0)].data)
  {
    if Position(r, tag) < |r| {
      var i := LineAt(s, r, Position(r, tag));
      assert s[i].tag == tag;
    }
  }

  lemma RaiseIsFill<T>(r: seq<Item<T>>, ways: nat, p: nat, item: Item<T>)
    requires p <= |r| <= ways && ways > 0
    requires
      if Position(r, item.tag) < |r| then p == Position(r, item.tag)
      else p == if |r| < ways then |r| else ways - 1
    ensures Raise(r, p, item) == ListFill(r, ways, item)
  {}

  lemma FillRefines<T>(s: seq<Line<T>>, r: seq<Item<T>>, tag: nat, data: T)
    requires Represents(s, r) && |s| > 0
    ensures Represents(Fill(s, tag, data), ListFill(r, |s|, Item(tag, data)))
  {
    VictimFound(s, |r|);
    WayOfPosition(s, r, tag);
    var way := WayFor(s, tag);
    PromoteRefines(s, r, way, Item(tag, data));
    RaiseIsFill(r, |s|, s[way].lru, Item(tag, data));
  }

  lemma TouchRefines<T>(s: seq<Line<T>>, r: seq<Item<T>>, tag: nat)
    requires Represents(s, r)
    ensures Represents(Touch(s, tag), ListTouch(r, tag))
  {
    WayOfPosition(s, r, tag);
    var way := WayOf(s, tag, 0);
    if way < |s| {
      var p := s[way].lru;
      PromoteRefines(s, r, way, r[p]);
      TouchPromotes(s, way, r[p]);
    }
  }

  lemma TouchPromotes<T>(s: seq<Line<T>>, way: nat, item: Item<T>)
    requires way < |s| && s[way].valid && item == Item(s[way].tag, s[way].data)
    ensures Promote(s, way)[way := Line(true, item.tag, item.data, 0)] == Promote(s, way)
  {}

  // ----- Whole histories --------------------------------------------------------------------

  datatype Op<T> = Store(tag: nat, data: T) | Use(tag: nat)

  function RunSet<T>(ways: nat, blank: T, ops: seq<Op<T>>): (s: seq<Line<T>>)
    ensures |s| == ways
  {
    if ops == [] then Blank(ways, blank) else
    var s := RunSet(ways, blank, ops[..|ops| - 1]);
    match ops[|ops| - 1]
    case Store(tag, data) => Fill(s, tag, data)
    case Use(tag) => Touch(s, tag)
  }

  function RunList<T>(ways: nat, ops: seq<Op<T>>): (r: seq<Item<T>>) {
    if ops == [] then [] else
    var r := RunList(ways, ops[..|ops| - 1]);
    match ops[|ops| - 1]
    case Store(tag, data) => ListFill(r, ways, Item(tag, data))
    case Use(tag) => ListTouch(r, tag)
  }

  /** Over every history of fills and touches, the lines represent the recency list. */
  lemma {:induction false} RunRefines<T>(ways: nat, blank: T, ops: seq<Op<T>>)
    requires ways > 0
    ensures Represents(RunSet(ways, blank, ops), RunList(ways, ops))
  {
    if ops != [] {
      var before := ops[..|ops| - 1];
      RunRefines(ways, blank, before);
      match ops[|ops| - 1]
      case Store(tag, data) => FillRefines(RunSet(ways, blank, before), RunList(ways, before), tag, data);
      case Use(tag) => TouchRefines(RunSet(ways, blank, before), RunList(ways, before), tag);
    }
  }

  /** The touches of a history that reached a line, in order: every store, and every use that hit. */
  function Accesses<T>(ways: nat, ops: seq<Op<T>>): (h: seq<Item<T>>) {
    if ops == [] then [] else
    var before := ops[..|ops| - 1];
    var h := Accesses(ways, before);
    match ops[|ops| - 1]
    case Store(tag, data) => h + [Item(tag, data)]
    case Use(tag) =>
      var r := RunList(ways, before);
      if Position(r, tag) < |r| then h + [r[Position(r, tag)]] else h
  }

  /** The distinct tags of a history, most recent first, each with its latest data. */
  function Recent<T>(h: seq<Item<T>>): (r: seq<Item<T>>) {
    if h == [] then [] else
    var item := h[|h| - 1];
    ToFront(Recent(h[..|h| - 1]), item)
  }

  lemma FrontDistinct<T>(r: seq<Item<T>>, item: Item<T>)
    requires Distinct(r)
    ensures Distinct(ToFront(r, item))
  {}

  lemma {:induction false} RecentDistinct<T>(h: seq<Item<T>>)
    ensures Distinct(Recent(h))
  {
    if h != [] {
      RecentDistinct(h[..|h| - 1]);
      FrontDistinct(Recent(h[..|h| - 1]), h[|h| - 1]);
    }
  }

  /** Cutting a recency list before or after moving an item to the front gives the same. */
  lemma CutCommutes<T>(r: seq<Item<T>>, item: Item<T>, ways: nat)
    ensures ListFill(Front(r, ways), ways, item) == ListFill(r, ways, item)
  {}

  /** A set of w ways holds exactly the w most recently touched distinct tags. */
  lemma {:induction false} RunIsRecent<T>(ways: nat, ops: seq<Op<T>>)
    requires ways > 0
    ensures RunList(ways, ops) == Front(Recent(Accesses(ways, ops)), ways)
  {
    if ops != [] {
      var before := ops[..|ops| - 1];
      RunIsRecent(ways, before);
      var h := Accesses(ways, before);
      var r := RunList(ways, before);
      RecentDistinct(h);
      match ops[|ops| - 1]
      case Store(tag, data) =>
        assert (h + [Item(tag, data)])[..|h|] == h;
        CutCommutes(Recent(h), Item(tag, data), ways);
      case Use(tag) =>
        var p := Position(r, tag);
        if p < |r| {
          assert (h + [r[p]])[..|h|] == h;
          CutCommutes(Recent(h), r[p], ways);
        }
    }
  }

  // ----- Stack distance ---------------------------------------------------------------------

  /** The tags touched after the last touch of `tag`; all of them if there was none. */
  function Since<T>(h: seq<Item<T>>, tag: nat): (tags: set<nat>)
    ensures tag !in tags
  {
    if h == [] || h[|h| - 1].tag == tag then {} else Since(h[..|h| - 1], tag) + {h[|h| - 1].tag}
  }

  /** What the last touch of `tag` stored. */
  function Latest<T>(h: seq<Item<T>>, tag: nat): (item: Item<T>)
    requires Has(h, tag)
  {
    if h[|h| - 1].tag == tag then h[|h| - 1] else
    var i :| 0 <= i < |h| && h[i].tag == tag;
    assert h[..|h| - 1][i].tag == tag;
    Latest(h[..|h| - 1], tag)
  }

  lemma FrontPosition<T>(r: seq<Item<T>>, item: Item<T>, x: nat)
    ensures Position(ToFront(r, item), x) ==
      if x == item.tag then 0 else
      if Position(r, x) == |r| then |ToFront(r, item)| else
      Position(r, x) + if Position(r, x) < Position(r, item.tag) then 1 else 0
  {
    var r' := ToFront(r, item);
    var i := Position(r, x);
    if x != item.tag && i < |r| {
      var k := if i < Position(r, item.tag) then i + 1 else i;
      assert r'[k] == r[i];
    }
  }

  lemma {:induction false} SinceOrder<T>(h: seq<Item<T>>, tag: nat, x: nat)
    ensures x in Since(h, tag) <==> Position(Recent(h), x) < Position(Recent(h), tag)
  {
    if h != [] {
      SinceOrder(h[..|h| - 1], tag, x);
      FrontOrder(Recent(h[..|h| - 1]), h[|h| - 1], tag, x);
    }
  }

  /** In the recency list a tag stands at the number of other tags touched since it was. */
  lemma {:induction false} StackDistance<T>(h: seq<Item<T>>, tag: nat)
    ensures Position(Recent(h), tag) == |Since(h, tag)|
  {
    if h != [] {
      var before, item := h[..|h| - 1], h[|h| - 1];
      StackDistance(before, tag);
      SinceOrder(before, tag, item.tag);
      FrontPosition(Recent(before), item, tag);
      if item.tag in Since(before, tag) {
        assert Since(before, tag) + {item.tag} == Since(before, tag);
      }
    }
  }

  /** The recency list has the tags touched, each with what its last touch stored. */
  lemma {:induction false} RecentHas<T>(h: seq<Item<T>>, tag: nat)
    ensures Has(h, tag) <==> Position(Recent(h), tag) < |Recent(h)|
    ensures Has(h, tag) ==> Recent(h)[Position(Recent(h), tag)] == Latest(h, tag)
  {
    if h != [] {
      var before, item := h[..|h| - 1], h[|h| - 1];
      RecentHas(before, tag);
      HasLast(h, tag);
      FrontPosition(Recent(before), item, tag);
      FrontItem(Recent(before), item, tag);
    }
  }

  lemma FrontOrder<T>(r: seq<Item<T>>, item: Item<T>, tag: nat, x: nat)
    ensures Position(ToFront(r, item), x) < Position(ToFront(r, item), tag) <==>
      tag != item.tag && (x == item.tag || Position(r, x) < Position(r, tag))
  {
    FrontPosition(r, item, x);
    FrontPosition(r, item, tag);
  }

  lemma FrontItem<T>(r: seq<Item<T>>, item: Item<T>, tag: nat)
    ensures var p := Position(ToFront(r, item), tag);
      p < |ToFront(r, item)| ==>
        ToFront(r, item)[p] == if tag == item.tag then item
          else if Position(r, tag) < |r| then r[Position(r, tag)] else item
  {
    FrontPosition(r, item, tag);
  }

  lemma HasLast<T>(h: seq<Item<T>>, tag: nat)
    requires h != []
    ensures Has(h, tag) <==> h[|h| - 1].tag == tag || Has(h[..|h| - 1], tag)
    ensures h[|h| - 1].tag != tag && Has(h, tag) ==> Latest(h, tag) == Latest(h[..|h| - 1], tag)
  {
    if Has(h, tag) && h[|h| - 1].tag != tag {
      var i :| 0 <= i < |h| && h[i].tag == tag;
      assert h[..|h| - 1][i].tag == tag;
    }
    if Has(h[..|h| - 1], tag) {
      var i :| 0 <= i < |h| - 1 && h[..|h| - 1][i].tag == tag;
      assert h[i].tag == tag;
    }
  }

  lemma PositionCut<T>(r: seq<Item<T>>, tag: nat, ways: nat)
    ensures Position(Front(r, ways), tag) ==
      if Position(r, tag) < |Front(r, ways)| then Position(r, tag) else |Front(r, ways)|
  {}

  /** A lookup after any history of fills and touches: it hits exactly when fewer other tags than
      there are ways were touched since the tag was, and returns what was stored last. */
  lemma HitsExactly<T>(ways: nat, blank: T, ops: seq<Op<T>>, tag: nat)
    requires ways > 0
    ensures var s := RunSet(ways, blank, ops);
      var h := Accesses(ways, ops);
      && (WayOf(s, tag, 0) < ways <==> Has(h, tag) && |Since(h, tag)| < ways)
      && (WayOf(s, tag, 0) < ways ==> s[WayOf(s, tag, 0)].data == Latest(h, tag).data)
  {
    RunRefines(ways, blank, ops);
    RunIsRecent(ways, ops);
    var h := Accesses(ways, ops);
    StackDistance(h, tag);
    RecentHas(h, tag);
    PositionCut(Recent(h), tag, ways);
    WayOfPosition(RunSet(ways, blank, ops), RunList(ways, ops), tag);
  }

  /** What the last store under a tag stored. */
  function LastStore<T>(ops: seq<Op<T>>, tag: nat): (data: seq<T>)
    ensures |data| <= 1
  {
    if ops == [] then [] else
    match ops[|ops| - 1]
    case Store(x, data) => if x == tag then [data] else LastStore(ops[..|ops| - 1], tag)
    case Use(_) => LastStore(ops[..|ops| - 1], tag)
  }

  /** Touches move items but never change them. */
  lemma {:induction false} LatestIsStored<T>(ways: nat, ops: seq<Op<T>>, tag: nat)
    requires ways > 0
    ensures var h := Accesses(ways, ops);
      && (Has(h, tag) <==> LastStore(ops, tag) != [])
      && (Has(h, tag) ==> LastStore(ops, tag) == [Latest(h, tag).data])
  {
    if ops != [] {
      var before := ops[..|ops| - 1];
      var h, h' := Accesses(ways, before), Accesses(ways, ops);
      LatestIsStored(ways, before, tag);
      if h' != h {
        assert h'[..|h'| - 1] == h;
        HasLast(h', tag);
        match ops[|ops| - 1]
        case Store(_, _) =>
        case Use(x) =>
          RunIsRecent(ways, before);
          RecentHas(h, x);
          PositionCut(Recent(h), x, ways);
      }
    }
  }

  // ----- Inclusion --------------------------------------------------------------------------

  /** small lists some of the items of big, in the same order; f says where. */
  ghost predicate Embeds<T>(small: seq<Item<T>>, big: seq<Item<T>>) {
    && (forall i :: 0 <= i < |small| ==>
        Position(big, small[i].tag) < |big| && big[Position(big, small[i].tag)] == small[i])
    && (forall i, j :: 0 <= i < j < |small| ==> Position(big, small[i].tag) < Position(big, small[j].tag))
  }

  lemma FrontEmbeds<T>(small: seq<Item<T>>, big: seq<Item<T>>, item: Item<T>)
    requires Distinct(small) && Distinct(big) && Embeds(small, big)
    ensures Embeds(ToFront(small, item), ToFront(big, item))
  {
    var small', big' := ToFront(small, item), ToFront(big, item);
    FrontDistinct(small, item);
    FrontDistinct(big, item);
    forall i | 0 <= i < |small'|
      ensures Position(big', small'[i].tag) < |big'| && big'[Position(big', small'[i].tag)] == small'[i]
      ensures i > 0 ==> Position(big', small'[i].tag) > 0
    {
      FrontPosition(big, item, small'[i].tag);
    }
    forall i, j | 0 <= i < j < |small'| ensures Position(big', small'[i].tag) < Position(big', small'[j].tag) {
      FrontPosition(big, item, small'[i].tag);
      FrontPosition(big, item, small'[j].tag);
    }
  }

  lemma CutEmbeds<T>(small: seq<Item<T>>, big: seq<Item<T>>, ways: nat)
    requires Embeds(small, big) && |small| <= ways + 1 && |big| <= ways + 2
    requires (|big| == ways + 2 ==> |small| == ways + 1)
    ensures Embeds(Front(small, ways), Front(big, ways + 1))
  {
    var small', big' := Front(small, ways), Front(big, ways + 1);
    forall i | 0 <= i < |small'|
      ensures Position(big', small'[i].tag) == Position(big, small[i].tag) < |big'|
    {
      assert |small| == ways + 1 ==> Position(big, small[i].tag) < Position(big, small[ways].tag);
      PositionCut(big, small[i].tag, ways + 1);
    }
  }

  lemma {:induction false} EmbedsAt<T>(small: seq<Item<T>>, big: seq<Item<T>>, i: nat)
    requires Embeds(small, big) && i < |small|
    ensures Position(big, small[i].tag) >= i
  {
    if i > 0 {
      EmbedsAt(small, big, i - 1);
    }
  }

  lemma {:induction false} EmbedsBelow<T>(small: seq<Item<T>>, big: seq<Item<T>>, i: nat)
    requires Embeds(small, big) && i < |small|
    ensures Position(big, small[i].tag) + |small| <= |big| + i
    decreases |small| - i
  {
    if i + 1 < |small| {
      EmbedsBelow(small, big, i + 1);
    }
  }

  /** A tag of the larger list is missing from the smaller one only if the smaller one is shorter. */
  lemma Missing<T>(small: seq<Item<T>>, big: seq<Item<T>>, tag: nat)
    requires Embeds(small, big) && Position(big, tag) < |big| && Position(small, tag) == |small|
    ensures |small| < |big|
  {
    var p := Position(big, tag);
    if |small| >= |big| {
      EmbedsAt(small, big, p);
      EmbedsBelow(small, big, p);
    }
  }

  lemma SkipEmbeds<T>(small: seq<Item<T>>, big: seq<Item<T>>, item: Item<T>)
    requires Embeds(small, big) && Position(small, item.tag) == |small|
    ensures Embeds(small, ToFront(big, item))
  {
    forall i | 0 <= i < |small|
      ensures var p := Position(big, small[i].tag);
        && Position(ToFront(big, item), small[i].tag) == p + (if p < Position(big, item.tag) then 1 else 0)
        && ToFront(big, item)[Position(ToFront(big, item), small[i].tag)] == big[p]
    {
      FrontPosition(big, item, small[i].tag);
    }
  }

  /** What holds between a set of `ways` ways and one with a way more, after the same history. */
  ghost predicate Included<T>(small: seq<Item<T>>, big: seq<Item<T>>, ways: nat) {
    && Distinct(small) && Distinct(big) && Embeds(small, big)
    && |big| <= ways + 1 && |small| == if |big| <= ways then |big| else ways
  }

  lemma IncludedFill<T>(small: seq<Item<T>>, big: seq<Item<T>>, ways: nat, item: Item<T>)
    requires Included(small, big, ways)
    ensures Included(ListFill(small, ways, item), ListFill(big, ways + 1, item), ways)
  {
    FrontEmbeds(small, big, item);
    FrontDistinct(small, item);
    FrontDistinct(big, item);
    if Position(big, item.tag) < |big| && Position(small, item.tag) == |small| {
      Missing(small, big, item.tag);
    }
    CutEmbeds(ToFront(small, item), ToFront(big, item), ways);
  }

  lemma IncludedTouch<T>(small: seq<Item<T>>, big: seq<Item<T>>, ways: nat, tag: nat)
    requires Included(small, big, ways)
    ensures Included(ListTouch(small, tag), ListTouch(big, tag), ways)
  {
    var i, j := Position(small, tag), Position(big, tag);
    if j < |big| {
      FrontDistinct(big, big[j]);
      if i < |small| {
        FrontEmbeds(small, big, big[j]);
        FrontDistinct(small, big[j]);
      } else {
        SkipEmbeds(small, big, big[j]);
      }
    }
  }

  /** A set is included in a set with one more way that saw the same fills and touches: whatever hits
      in the first hits in the second, with the same data. */
  lemma {:induction false} RunIncluded<T>(ways: nat, ops: seq<Op<T>>)
    ensures Included(RunList(ways, ops), RunList(ways + 1, ops), ways)
  {
    if ops != [] {
      var before := ops[..|ops| - 1];
      RunIncluded(ways, before);
      match ops[|ops| - 1]
      case Store(tag, data) => IncludedFill(RunList(ways, before), RunList(ways + 1, before), ways, Item(tag, data));
      case Use(tag) => IncludedTouch(RunList(ways, before), RunList(ways + 1, before), ways, tag);
    }
  }

  lemma Inclusion<T>(ways: nat, blank: T, ops: seq<Op<T>>, tag: nat)
    requires ways > 0
    ensures var s, s' := RunSet(ways, blank, ops), RunSet(ways + 1, blank, ops);
      WayOf(s, tag, 0) < ways ==>
        WayOf(s', tag, 0) <= ways && s'[WayOf(s', tag, 0)].data == s[WayOf(s, tag, 0)].data
  {
    RunIncluded(ways, ops);
    RunRefines(ways, blank, ops);
    RunRefines(ways + 1, blank, ops);
    WayOfPosition(RunSet(ways, blank, ops), RunList(ways, ops), tag);
    WayOfPosition(RunSet(ways + 1, blank, ops), RunList(ways + 1, ops), tag);
  }
}
