/** The second level of the compressed branch target buffer.

    A table of blocks, four ways, either set-associative or with a different hash for every way.  The
    variant of a block decides how tags and targets are encoded in it and how many entries it holds.
    Main results, for every history of fills and hits: a fill is found again with its target, every
    stored entry decodes to a target once filled for its branch, and no block is ever over or empty. */
module MicroBtb {
  import opened Bits
  import opened Common
  import opened Lru
  import opened MicroCompression

  const WAYS: nat := 4

  /** A layout: number of sets and of index bits, whether the ways are skewed, the most compressed
      variant in use. */
  datatype Config = Config(sets: nat, bits: nat, skewed: bool, top: nat)

  predicate Supported(cfg: Config) {
    cfg.sets > 0 && cfg.bits > 0 && 1 <= cfg.top <= 3 && (!cfg.skewed ==> cfg.sets == Pow2(cfg.bits))
  }

  /** One branch in a block: its encoded target, its kind and its address. */
  datatype Track = Track(data: nat, kind: nat, ip: nat)

  datatype Block = Block(variant: nat, size: nat, entries: map<nat, Track>)

  const NO_BLOCK := Block(255, 0, map[])

  /** A row holds the four ways of a set index; the `tag` field of its lines is not used. */
  type Row = seq<Line<Block>>
  type Table = seq<Row>

  predicate Shaped(cfg: Config, table: Table) {
    |table| == cfg.sets && forall i :: 0 <= i < |table| ==> |table[i]| == WAYS
  }

  // ----- Finding a branch -------------------------------------------------------------------

  /** Set index at which a way looks for an address. */
  function Loc(cfg: Config, address: nat, way: nat): (i: nat)
    requires Supported(cfg)
    ensures i < cfg.sets
  {
    var instruction := address / 4;
    if cfg.skewed then Skew(instruction, cfg.bits, cfg.sets, way)
    else Xor((instruction / 16384) % 16384, instruction % 16384) % Pow2(cfg.bits)
  }

  function At(cfg: Config, table: Table, address: nat, way: nat): Line<Block>
    requires Supported(cfg) && Shaped(cfg, table) && way < WAYS
  {
    table[Loc(cfg, address, way)][way]
  }

  predicate Holds(line: Line<Block>, address: nat) {
    line.valid && Subtag(address, line.data.variant) in line.data.entries
  }

  /** First way from n on whose block has an entry for the address; WAYS if there is none. */
  function HitWay(cfg: Config, table: Table, address: nat, n: nat): (way: nat)
    requires Supported(cfg) && Shaped(cfg, table) && n <= WAYS
    ensures n <= way <= WAYS && (way < WAYS ==> Holds(At(cfg, table, address, way), address))
    ensures forall w :: n <= w < way ==> !Holds(At(cfg, table, address, w), address)
    decreases WAYS - n
  {
    if n == WAYS || Holds(At(cfg, table, address, n), address) then n else HitWay(cfg, table, address, n + 1)
  }

  /** The target that an entry stands for at an address. */
  function Decode(variant: nat, address: nat, data: nat): nat
    requires address < WORD && data < WORD
  {
    if variant == 0 then data else Add64(address, data)
  }

  /** Which bits of the address make bit k of the set index: two of them, and in a skewed table with as many sets as its
      index bits tell apart the lower one is turned by the way. */
  lemma LocBit(cfg: Config, address: nat, way: nat, k: nat)
    requires Supported(cfg) && cfg.sets == Pow2(cfg.bits) && k < cfg.bits
    ensures Bit(Loc(cfg, address, way), k) ==
      if cfg.skewed
        then (InstrBit(address, Before(k, way, cfg.bits)) + InstrBit(address, cfg.bits + k)) % 2
      else if k < 14 then (InstrBit(address, k) + InstrBit(address, k + 14)) % 2 else 0
  {
    var x := address / 4;
    if cfg.skewed {
      SkewBit(x, cfg.bits, way, k);
    } else {
      HalvesBit(x, k);
      LowBit(Xor((x / 16384) % 16384, x % 16384), cfg.bits, Loc(cfg, address, way), k);
    }
  }

  // ----- Filling ----------------------------------------------------------------------------

  predicate HasRoom(line: Line<Block>, variant: nat) {
    line.valid && line.data.variant == variant && |line.data.entries| < line.data.size
  }

  /** First way from n on with a block of this variant that has room; WAYS if there is none. */
  function RoomWay(cfg: Config, table: Table, address: nat, variant: nat, n: nat): (way: nat)
    requires Supported(cfg) && Shaped(cfg, table) && n <= WAYS
    ensures n <= way <= WAYS && (way < WAYS ==> HasRoom(At(cfg, table, address, way), variant))
    ensures forall w :: n <= w < way ==> !HasRoom(At(cfg, table, address, w), variant)
    decreases WAYS - n
  {
    if n == WAYS || HasRoom(At(cfg, table, address, n), variant) then n
    else RoomWay(cfg, table, address, variant, n + 1)
  }

  /** First way from n on whose block is not valid; WAYS if there is none. */
  function FreeWay(cfg: Config, table: Table, address: nat, n: nat): (way: nat)
    requires Supported(cfg) && Shaped(cfg, table) && n <= WAYS
    ensures n <= way <= WAYS
    ensures way < WAYS ==> !At(cfg, table, address, way).valid
    ensures forall w :: n <= w < way ==> At(cfg, table, address, w).valid
    decreases WAYS - n
  {
    if n == WAYS || !At(cfg, table, address, n).valid then n else FreeWay(cfg, table, address, n + 1)
  }

  /** The way to replace; a skewed table draws one when all are in use. */
  function VictimWay(cfg: Config, table: Table, address: nat, draw: nat): nat
    requires Supported(cfg) && Shaped(cfg, table) && draw < WAYS
  {
    if !cfg.skewed then Victim(table[Loc(cfg, address, 0)]) else
    var free := FreeWay(cfg, table, address, 0);
    if free < WAYS then free else draw
  }

  function LocationFor(cfg: Config, table: Table, address: nat, variant: nat, draw: nat): nat
    requires Supported(cfg) && Shaped(cfg, table) && draw < WAYS
  {
    var room := if cfg.skewed || variant > 0 then RoomWay(cfg, table, address, variant, 0) else WAYS;
    if room < WAYS then room else VictimWay(cfg, table, address, draw)
  }

  /** One branch to remember. */
  datatype Branch = Branch(ip: nat, target: nat, kind: nat, isReturn: bool)

  predicate Legal(b: Branch) {
    b.ip < WORD && b.target < WORD
  }

  /** Returns take the most compressed variant whatever their distance. */
  function VariantFor(cfg: Config, b: Branch): nat {
    if b.isReturn then cfg.top else Variant(cfg.top, FindAbsolute(b.ip, b.target))
  }

  /** A branch gets the most compressed variant allowed whose signed field holds its distance; a return the most
      compressed one of all. */
  lemma VariantOf(cfg: Config, b: Branch)
    requires Supported(cfg)
    ensures var v, offset := VariantFor(cfg, b), if b.ip > b.target then b.ip - b.target else b.target - b.ip;
      && v <= cfg.top && (b.isReturn ==> v == cfg.top)
      && (!b.isReturn && v > 0 ==> offset < Pow2(FieldBits(v) - 1))
      && (!b.isReturn ==> forall w :: v < w <= cfg.top ==> offset >= Pow2(FieldBits(w) - 1))
  {
    VariantIsTightest(cfg.top, FindAbsolute(b.ip, b.target));
  }

  function FillWay(cfg: Config, table: Table, b: Branch, draw: nat): (way: nat)
    requires Supported(cfg) && Shaped(cfg, table) && draw < WAYS
  {
    var hit := HitWay(cfg, table, b.ip, 0);
    if hit < WAYS then hit else LocationFor(cfg, table, b.ip, VariantFor(cfg, b), draw)
  }

  function Encode(b: Branch, variant: nat): Track
    requires Legal(b)
  {
    Track(if variant == 0 then b.target else Sub64(b.target, b.ip), b.kind, b.ip)
  }

  /** The entries that stay when a branch of the given variant is added to a block. */
  function Kept(block: Block, variant: nat): (kept: map<nat, Track>)
    ensures forall t :: t in kept ==> t in block.entries && kept[t] == block.entries[t] && variant == block.variant
  {
    if variant == 0 || variant != block.variant then map[]
    else if |block.entries| < block.size then block.entries
    else block.entries - {Least(block.entries.Keys)}
  }

  /** A block after a branch is added: same variant and room, same variant but full, or another
      variant. */
  function Added(block: Block, b: Branch, variant: nat): Block
    requires Legal(b)
  {
    Block(variant, Pow2(variant), Kept(block, variant)[Subtag(b.ip, variant) := Encode(b, variant)])
  }

  /** `update_replacement_state` in the row of the way used. */
  function Touched(cfg: Config, row: Row, way: nat): (row': Row)
    requires way < |row|
    ensures |row'| == |row|
  {
    if cfg.skewed then row[way := row[way].(lru := 0)] else Promote(row, way)
  }

  /** The L2 part of `fill_btb`. */
  function FillTable(cfg: Config, table: Table, b: Branch, draw: nat): (table': Table)
    requires Supported(cfg) && Shaped(cfg, table) && draw < WAYS && Legal(b)
    ensures Shaped(cfg, table')
  {
    var way := FillWay(cfg, table, b, draw);
    if way >= WAYS then table else
    var i := Loc(cfg, b.ip, way);
    var line := table[i][way];
    table[i := Touched(cfg, table[i], way)[way := Line(true, line.tag, Added(line.data, b, VariantFor(cfg, b)), 0)]]
  }

  /** A hit refreshes the replacement state of the way it found. */
  function Refresh(cfg: Config, table: Table, address: nat): (table': Table)
    requires Supported(cfg) && Shaped(cfg, table)
    ensures Shaped(cfg, table')
  {
    var way := HitWay(cfg, table, address, 0);
    if way == WAYS then table else
    var i := Loc(cfg, address, way);
    table[i := Touched(cfg, table[i], way)]
  }

  // ----- The invariant ----------------------------------------------------------------------

  /** Every entry of a block is filed under the hash of its branch, at a place where that branch is
      looked up, and decodes to a target filled for it. */
  ghost predicate BlockOk(cfg: Config, block: Block, i: nat, way: nat, filled: set<Branch>)
    requires Supported(cfg)
  {
    && block.variant <= cfg.top
    && block.size == Pow2(block.variant)
    && 1 <= |block.entries| <= block.size
    && forall tag :: tag in block.entries ==> EntryOk(cfg, block.variant, tag, block.entries[tag], i, way, filled)
  }

  /** Entry e stands for branch b; unless b is a return, a field of the variant's width is enough. */
  ghost predicate Remembers(variant: nat, e: Track, b: Branch)
    requires e.ip < WORD && e.data < WORD
  {
    && b.ip == e.ip && b.kind == e.kind && b.target == Decode(variant, e.ip, e.data) && Legal(b)
    && (variant > 0 && !b.isReturn ==> Fits(b.ip, b.target, FieldBits(variant)))
  }

  ghost predicate EntryOk(cfg: Config, variant: nat, tag: nat, e: Track, i: nat, way: nat, filled: set<Branch>)
    requires Supported(cfg)
  {
    && e.ip < WORD && e.data < WORD
    && tag == Subtag(e.ip, variant) && Loc(cfg, e.ip, way) == i
    && exists b :: b in filled && Remembers(variant, e, b)
  }

  ghost predicate LineOk(cfg: Config, line: Line<Block>, i: nat, way: nat, filled: set<Branch>)
    requires Supported(cfg)
  {
    if line.valid then BlockOk(cfg, line.data, i, way, filled) else line.data == NO_BLOCK
  }

  ghost predicate RowOk(cfg: Config, row: Row, i: nat, filled: set<Branch>)
    requires Supported(cfg)
  {
    && |row| == WAYS
    && (forall way :: 0 <= way < WAYS ==> LineOk(cfg, row[way], i, way, filled))
    && (!cfg.skewed ==> exists n: nat :: Ordered(row, n))
  }

  ghost predicate Inv(cfg: Config, table: Table, filled: set<Branch>)
    requires Supported(cfg)
  {
    Shaped(cfg, table) && forall i :: 0 <= i < cfg.sets ==> RowOk(cfg, table[i], i, filled)
  }

  /** What a set-associative row offers for filling: any valid way, or the victim. */
  lemma WaysOfRow(row: Row, n: nat)
    requires Ordered(row, n) && |row| == WAYS
    ensures Victim(row) < WAYS && Victim(row) <= n
    ensures forall w :: 0 <= w < WAYS && row[w].valid ==> w <= n
  {
    VictimFound(row, n);
  }

  lemma SameRow(cfg: Config, address: nat, way: nat)
    requires Supported(cfg) && !cfg.skewed
    ensures Loc(cfg, address, way) == Loc(cfg, address, 0)
  {}

  /** A way to fill is always found. */
  lemma FillWayFound(cfg: Config, table: Table, b: Branch, draw: nat, filled: set<Branch>)
    requires Supported(cfg) && Inv(cfg, table, filled) && draw < WAYS && Legal(b)
    ensures FillWay(cfg, table, b, draw) < WAYS
    ensures !cfg.skewed ==> forall n: nat :: Ordered(table[Loc(cfg, b.ip, 0)], n) ==> FillWay(cfg, table, b, draw) <= n
  {
    if !cfg.skewed {
      var row := table[Loc(cfg, b.ip, 0)];
      assert RowOk(cfg, row, Loc(cfg, b.ip, 0), filled);
      var way := FillWay(cfg, table, b, draw);
      SameRow(cfg, b.ip, way);
      forall n: nat | Ordered(row, n) ensures way < WAYS && way <= n {
        WaysOfRow(row, n);
      }
    }
  }

  // ----- Which way is filled ----------------------------------------------------------------

  /** A fill asks for room in a block of its variant; the uncompressed variant does so in a skewed table only. */
  predicate Asks(cfg: Config, b: Branch) {
    cfg.skewed || VariantFor(cfg, b) > 0
  }

  /** The first way that has the branch. */
  lemma FillsHit(cfg: Config, table: Table, b: Branch, draw: nat, w: nat)
    requires Supported(cfg) && Shaped(cfg, table) && draw < WAYS && w < WAYS && Holds(At(cfg, table, b.ip, w), b.ip)
    ensures var way := FillWay(cfg, table, b, draw); way <= w && Holds(At(cfg, table, b.ip, way), b.ip)
  {}

  /** Else the first with room for its variant. */
  lemma FillsRoom(cfg: Config, table: Table, b: Branch, draw: nat, w: nat)
    requires Supported(cfg) && Shaped(cfg, table) && draw < WAYS && w < WAYS && HitWay(cfg, table, b.ip, 0) == WAYS
    requires Asks(cfg, b) && HasRoom(At(cfg, table, b.ip, w), VariantFor(cfg, b))
    ensures var way := FillWay(cfg, table, b, draw); way <= w && HasRoom(At(cfg, table, b.ip, way), VariantFor(cfg, b))
  {}

  /** Nothing else holds the branch or has room. */
  ghost predicate NoPlace(cfg: Config, table: Table, b: Branch)
    requires Supported(cfg) && Shaped(cfg, table)
  {
    && HitWay(cfg, table, b.ip, 0) == WAYS
    && (Asks(cfg, b) ==> forall w :: 0 <= w < WAYS ==> !HasRoom(At(cfg, table, b.ip, w), VariantFor(cfg, b)))
  }

  lemma NoPlaceVictim(cfg: Config, table: Table, b: Branch, draw: nat)
    requires Supported(cfg) && Shaped(cfg, table) && draw < WAYS && NoPlace(cfg, table, b)
    ensures FillWay(cfg, table, b, draw) == VictimWay(cfg, table, b.ip, draw)
  {}

  /** Else the first that is free; and when none is, the least recently used one or, in a skewed table, the drawn
      one. */
  lemma FillsVictim(cfg: Config, table: Table, b: Branch, draw: nat, filled: set<Branch>, w: nat)
    requires Supported(cfg) && Inv(cfg, table, filled) && draw < WAYS && NoPlace(cfg, table, b) && w < WAYS
    ensures var way := FillWay(cfg, table, b, draw);
      && way < WAYS
      && (!At(cfg, table, b.ip, w).valid ==> way <= w && !At(cfg, table, b.ip, way).valid)
      && ((forall v :: 0 <= v < WAYS ==> At(cfg, table, b.ip, v).valid) ==>
            if cfg.skewed then way == draw else At(cfg, table, b.ip, w).lru <= At(cfg, table, b.ip, way).lru)
  {
    NoPlaceVictim(cfg, table, b, draw);
    if !cfg.skewed {
      var i := Loc(cfg, b.ip, 0);
      assert RowOk(cfg, table[i], i, filled);
      var n: nat :| Ordered(table[i], n);
      VictimFound(table[i], n);
      forall v | 0 <= v < WAYS ensures At(cfg, table, b.ip, v) == table[i][v] {
        SameRow(cfg, b.ip, v);
      }
    }
  }

  /** A use makes its way the most recent of its row: in a set-associative table those more recent before age by one,
      in a skewed one the others keep their age. */
  lemma UseIsRecent(cfg: Config, row: Row, way: nat, w: nat)
    requires way < |row| && w < |row|
    ensures var row' := Touched(cfg, row, way);
      row'[w] == row[w].(lru := if w == way then 0 else if !cfg.skewed && row[w].lru < row[way].lru then row[w].lru + 1
                                else row[w].lru)
  {}

  /** A lookup that hits does this to the row of the way found, and a fill to that of the way filled. */
  lemma HitAndFillUse(cfg: Config, table: Table, address: nat, b: Branch, draw: nat)
    requires Supported(cfg) && Shaped(cfg, table) && draw < WAYS && Legal(b)
    ensures HitWay(cfg, table, address, 0) < WAYS ==>
      var i := Loc(cfg, address, HitWay(cfg, table, address, 0));
      Refresh(cfg, table, address) == table[i := Touched(cfg, table[i], HitWay(cfg, table, address, 0))]
    ensures FillWay(cfg, table, b, draw) < WAYS ==>
      var i, way := Loc(cfg, b.ip, FillWay(cfg, table, b, draw)), FillWay(cfg, table, b, draw);
      forall w :: 0 <= w < WAYS ==> FillTable(cfg, table, b, draw)[i][w].lru == Touched(cfg, table[i], way)[w].lru
  {}

  lemma KeptSize(block: Block, variant: nat)
    requires block.size == Pow2(block.variant) && 1 <= |block.entries| <= block.size
    ensures |Kept(block, variant)| < Pow2(variant)
  {
    if variant != 0 && variant == block.variant && |block.entries| == block.size {
      var least := Least(block.entries.Keys);
      assert |block.entries.Keys| == |block.entries|;
      assert (block.entries - {least}).Keys == block.entries.Keys - {least};
    }
  }

  lemma AddSize(m: map<nat, Track>, t: nat, e: Track)
    ensures |m| <= |m[t := e]| <= |m| + 1 && 1 <= |m[t := e]|
  {
    assert m[t := e].Keys == m.Keys + {t};
  }

  lemma EncodeDecodes(b: Branch, variant: nat)
    requires Legal(b)
    ensures var e := Encode(b, variant); e.data < WORD && Decode(variant, b.ip, e.data) == b.target
  {}

  lemma AddedOk(cfg: Config, line: Line<Block>, b: Branch, way: nat, filled: set<Branch>)
    requires Supported(cfg) && Legal(b) && LineOk(cfg, line, Loc(cfg, b.ip, way), way, filled)
    ensures BlockOk(cfg, Added(line.data, b, VariantFor(cfg, b)), Loc(cfg, b.ip, way), way, filled + {b})
  {
    var variant := VariantFor(cfg, b);
    var i := Loc(cfg, b.ip, way);
    VariantIsTightest(cfg.top, FindAbsolute(b.ip, b.target));
    EncodeDecodes(b, variant);
    var kept := Kept(line.data, variant);
    if line.valid {
      KeptSize(line.data, variant);
    }
    AddSize(kept, Subtag(b.ip, variant), Encode(b, variant));
    assert Remembers(variant, Encode(b, variant), b);
    forall tag | tag in kept ensures EntryOk(cfg, variant, tag, kept[tag], i, way, filled + {b}) {
      assert EntryOk(cfg, variant, tag, line.data.entries[tag], i, way, filled);
    }
  }

  // ----- What a fill keeps ------------------------------------------------------------------

  /** Adding to a block of the same compressed variant keeps every other entry while there is room, and otherwise all
      but the one of the smallest tag, even if the branch itself was in the block. */
  lemma AddedKeeps(block: Block, b: Branch, variant: nat, tag: nat)
    requires Legal(b) && variant > 0 && variant == block.variant && tag != Subtag(b.ip, variant)
    ensures var smallest := tag in block.entries && forall t :: t in block.entries ==> tag <= t;
      var after := Added(block, b, variant).entries;
      && (tag in after <==> tag in block.entries && !(|block.entries| >= block.size && smallest))
      && (tag in after ==> after[tag] == block.entries[tag])
  {
    if block.entries != map[] {
      assert block.entries.Keys != {};
    }
  }

  /** Adding to a block of another variant, or of the uncompressed one, leaves the new entry alone. */
  lemma AddedAlone(block: Block, b: Branch, variant: nat)
    requires Legal(b) && (variant == 0 || variant != block.variant)
    ensures Added(block, b, variant).entries == map[Subtag(b.ip, variant) := Encode(b, variant)]
  {}

  // ----- Fills and hits keep it -------------------------------------------------------------

  lemma MoreFilled(cfg: Config, line: Line<Block>, i: nat, way: nat, filled: set<Branch>, more: set<Branch>)
    requires Supported(cfg) && LineOk(cfg, line, i, way, filled) && filled <= more
    ensures LineOk(cfg, line, i, way, more)
  {
    if line.valid {
      forall tag | tag in line.data.entries
        ensures EntryOk(cfg, line.data.variant, tag, line.data.entries[tag], i, way, more)
      {
        assert EntryOk(cfg, line.data.variant, tag, line.data.entries[tag], i, way, filled);
      }
    }
  }

  /** Replacement state aside, a touch changes no line. */
  lemma TouchedLine(cfg: Config, row: Row, way: nat, w: nat)
    requires way < |row| && w < |row|
    ensures Touched(cfg, row, way)[w] == row[w].(lru := Touched(cfg, row, way)[w].lru)
  {}

  lemma RowTouched(cfg: Config, row: Row, i: nat, way: nat, filled: set<Branch>)
    requires Supported(cfg) && RowOk(cfg, row, i, filled) && way < WAYS && row[way].valid
    ensures RowOk(cfg, Touched(cfg, row, way), i, filled)
  {
    forall w | 0 <= w < WAYS ensures LineOk(cfg, Touched(cfg, row, way)[w], i, w, filled) {
      TouchedLine(cfg, row, way, w);
    }
    if !cfg.skewed {
      var n: nat :| Ordered(row, n);
      var item := Item(row[way].tag, row[way].data);
      TouchPromotes(row, way, item);
      PromoteOrdered(row, n, way, item, Promote(row, way));
    }
  }

  lemma RowFilled(cfg: Config, row: Row, i: nat, way: nat, line: Line<Block>, filled: set<Branch>, more: set<Branch>)
    requires Supported(cfg) && RowOk(cfg, row, i, filled) && filled <= more
    requires way < WAYS && (!cfg.skewed ==> forall n: nat :: Ordered(row, n) ==> way <= n)
    requires line.valid && line.lru == 0 && BlockOk(cfg, line.data, i, way, more)
    ensures RowOk(cfg, Touched(cfg, row, way)[way := line], i, more)
  {
    var row' := Touched(cfg, row, way)[way := line];
    forall w | 0 <= w < WAYS ensures LineOk(cfg, row'[w], i, w, more) {
      TouchedLine(cfg, row, way, w);
      MoreFilled(cfg, row[w], i, w, filled, more);
    }
    if !cfg.skewed {
      var n: nat :| Ordered(row, n);
      PromoteOrdered(row, n, way, Item(line.tag, line.data), row');
    }
  }

  lemma OtherRow(cfg: Config, row: Row, i: nat, filled: set<Branch>, more: set<Branch>)
    requires Supported(cfg) && RowOk(cfg, row, i, filled) && filled <= more
    ensures RowOk(cfg, row, i, more)
  {
    forall w | 0 <= w < WAYS ensures LineOk(cfg, row[w], i, w, more) {
      MoreFilled(cfg, row[w], i, w, filled, more);
    }
  }

  lemma FilledRow(cfg: Config, table: Table, b: Branch, draw: nat, filled: set<Branch>)
    requires Supported(cfg) && Inv(cfg, table, filled) && draw < WAYS && Legal(b) && FillWay(cfg, table, b, draw) < WAYS
    ensures var i := Loc(cfg, b.ip, FillWay(cfg, table, b, draw));
      RowOk(cfg, FillTable(cfg, table, b, draw)[i], i, filled + {b})
  {
    FillWayFound(cfg, table, b, draw, filled);
    var way := FillWay(cfg, table, b, draw);
    var i := Loc(cfg, b.ip, way);
    var line := table[i][way];
    assert RowOk(cfg, table[i], i, filled);
    AddedOk(cfg, line, b, way, filled);
    if !cfg.skewed {
      SameRow(cfg, b.ip, way);
    }
    RowFilled(cfg, table[i], i, way, Line(true, line.tag, Added(line.data, b, VariantFor(cfg, b)), 0), filled,
              filled + {b});
  }

  lemma FillKeeps(cfg: Config, table: Table, b: Branch, draw: nat, filled: set<Branch>)
    requires Supported(cfg) && Inv(cfg, table, filled) && draw < WAYS && Legal(b)
    ensures Inv(cfg, FillTable(cfg, table, b, draw), filled + {b})
  {
    FillWayFound(cfg, table, b, draw, filled);
    FilledRow(cfg, table, b, draw, filled);
    var table' := FillTable(cfg, table, b, draw);
    forall i | 0 <= i < cfg.sets ensures RowOk(cfg, table'[i], i, filled + {b}) {
      if i != Loc(cfg, b.ip, FillWay(cfg, table, b, draw)) {
        OtherRow(cfg, table[i], i, filled, filled + {b});
      }
    }
  }

  lemma RefreshKeeps(cfg: Config, table: Table, address: nat, filled: set<Branch>)
    requires Supported(cfg) && Inv(cfg, table, filled)
    ensures Inv(cfg, Refresh(cfg, table, address), filled)
  {
    var way := HitWay(cfg, table, address, 0);
    if way < WAYS {
      var i := Loc(cfg, address, way);
      assert RowOk(cfg, table[i], i, filled);
      RowTouched(cfg, table[i], i, way, filled);
    }
  }

  // ----- Whole histories --------------------------------------------------------------------

  datatype Event = Learn(branch: Branch, draw: nat) | Hit(address: nat)

  predicate LegalEvent(e: Event) {
    e.Learn? ==> Legal(e.branch) && e.draw < WAYS
  }

  function EmptyTable(cfg: Config): Table {
    seq(cfg.sets, _ => Blank(WAYS, NO_BLOCK))
  }

  function Step(cfg: Config, table: Table, e: Event): (table': Table)
    requires Supported(cfg) && Shaped(cfg, table) && LegalEvent(e)
    ensures Shaped(cfg, table')
  {
    match e
    case Learn(b, draw) => FillTable(cfg, table, b, draw)
    case Hit(address) => Refresh(cfg, table, address)
  }

  function Run(cfg: Config, events: seq<Event>): (table: Table)
    requires Supported(cfg) && forall i :: 0 <= i < |events| ==> LegalEvent(events[i])
    ensures Shaped(cfg, table)
  {
    if events == [] then EmptyTable(cfg) else Step(cfg, Run(cfg, events[..|events| - 1]), events[|events| - 1])
  }

  lemma RunNext(cfg: Config, events: seq<Event>, e: Event)
    requires Supported(cfg) && LegalEvent(e) && forall i :: 0 <= i < |events| ==> LegalEvent(events[i])
    ensures Run(cfg, events + [e]) == Step(cfg, Run(cfg, events), e)
  {
    assert (events + [e])[..|events|] == events;
  }

  ghost function Filled(events: seq<Event>): (filled: set<Branch>) {
    if events == [] then {} else
    var filled := Filled(events[..|events| - 1]);
    if events[|events| - 1].Learn? then filled + {events[|events| - 1].branch} else filled
  }

  lemma {:induction false} ReachableInv(cfg: Config, events: seq<Event>)
    requires Supported(cfg) && forall i :: 0 <= i < |events| ==> LegalEvent(events[i])
    ensures Inv(cfg, Run(cfg, events), Filled(events))
  {
    if events == [] {
      assert Ordered(Blank(WAYS, NO_BLOCK), 0);
    } else {
      var before := events[..|events| - 1];
      ReachableInv(cfg, before);
      match events[|events| - 1]
      case Learn(b, draw) => FillKeeps(cfg, Run(cfg, before), b, draw, Filled(before));
      case Hit(address) => RefreshKeeps(cfg, Run(cfg, before), address, Filled(before));
    }
  }

  // ----- What a lookup returns --------------------------------------------------------------

  /** The entry that a lookup finds, and the target it predicts. */
  function Found(cfg: Config, table: Table, address: nat): Track
    requires Supported(cfg) && Shaped(cfg, table) && HitWay(cfg, table, address, 0) < WAYS
  {
    var block := At(cfg, table, address, HitWay(cfg, table, address, 0)).data;
    block.entries[Subtag(address, block.variant)]
  }

  function Predicted(cfg: Config, table: Table, address: nat): nat
    requires Supported(cfg) && Shaped(cfg, table) && HitWay(cfg, table, address, 0) < WAYS
    requires address < WORD && Found(cfg, table, address).data < WORD
  {
    Decode(At(cfg, table, address, HitWay(cfg, table, address, 0)).data.variant, address,
           Found(cfg, table, address).data)
  }

  /** A fill leaves the blocks of the other ways alone, wherever they are looked up. */
  lemma FillElsewhere(cfg: Config, table: Table, b: Branch, draw: nat, address: nat, w: nat)
    requires Supported(cfg) && Shaped(cfg, table) && draw < WAYS && Legal(b)
    requires w < WAYS && FillWay(cfg, table, b, draw) < WAYS && w != FillWay(cfg, table, b, draw)
    ensures var after := At(cfg, FillTable(cfg, table, b, draw), address, w);
      after == At(cfg, table, address, w).(lru := after.lru)
  {
    var way := FillWay(cfg, table, b, draw);
    TouchedLine(cfg, table[Loc(cfg, b.ip, way)], way, w);
  }

  lemma FilledAt(cfg: Config, table: Table, b: Branch, draw: nat)
    requires Supported(cfg) && Shaped(cfg, table) && draw < WAYS && Legal(b) && FillWay(cfg, table, b, draw) < WAYS
    ensures var way := FillWay(cfg, table, b, draw);
      var variant := VariantFor(cfg, b);
      var after := At(cfg, FillTable(cfg, table, b, draw), b.ip, way);
      && after.valid && after.data.variant == variant && Subtag(b.ip, variant) in after.data.entries
      && after.data.entries[Subtag(b.ip, variant)] == Encode(b, variant)
  {}

  /** From any reachable state, right after a fill the branch is found again, with its target. */
  lemma RoundTrip(cfg: Config, table: Table, b: Branch, draw: nat, filled: set<Branch>)
    requires Supported(cfg) && Inv(cfg, table, filled) && draw < WAYS && Legal(b)
    ensures var table' := FillTable(cfg, table, b, draw);
      && HitWay(cfg, table', b.ip, 0) == FillWay(cfg, table, b, draw) < WAYS
      && Found(cfg, table', b.ip) == Encode(b, VariantFor(cfg, b))
      && Predicted(cfg, table', b.ip) == b.target
  {
    FillWayFound(cfg, table, b, draw, filled);
    FilledAt(cfg, table, b, draw);
    EncodeDecodes(b, VariantFor(cfg, b));
    var table' := FillTable(cfg, table, b, draw);
    var way := FillWay(cfg, table, b, draw);
    forall w | 0 <= w < way ensures !Holds(At(cfg, table', b.ip, w), b.ip) {
      FillElsewhere(cfg, table, b, draw, b.ip, w);
      assert !Holds(At(cfg, table, b.ip, w), b.ip);
    }
  }

  /** A branch found in a block of the filled variant with room is found again after the fill, with the same
      prediction, unless it has the same tag there. */
  lemma FillKeepsOthers(cfg: Config, table: Table, b: Branch, draw: nat, filled: set<Branch>, address: nat)
    requires Supported(cfg) && Inv(cfg, table, filled) && draw < WAYS && Legal(b) && address < WORD
    requires var way, variant := FillWay(cfg, table, b, draw), VariantFor(cfg, b);
      && way < WAYS && HitWay(cfg, table, address, 0) == way && variant > 0
      && HasRoom(At(cfg, table, b.ip, way), variant) && Subtag(address, variant) != Subtag(b.ip, variant)
    ensures var table' := FillTable(cfg, table, b, draw);
      && HitWay(cfg, table', address, 0) == HitWay(cfg, table, address, 0) < WAYS
      && Found(cfg, table', address) == Found(cfg, table, address)
      && At(cfg, table', address, HitWay(cfg, table', address, 0)).data.variant ==
           At(cfg, table, address, HitWay(cfg, table, address, 0)).data.variant
  {
    FillWayFound(cfg, table, b, draw, filled);
    var table', way := FillTable(cfg, table, b, draw), FillWay(cfg, table, b, draw);
    forall w | 0 <= w < way ensures !Holds(At(cfg, table', address, w), address) {
      FillElsewhere(cfg, table, b, draw, address, w);
      assert !Holds(At(cfg, table, address, w), address);
    }
    FillHere(cfg, table, b, draw, address);
  }

  /** The line of an address in the way filled. */
  lemma FillHere(cfg: Config, table: Table, b: Branch, draw: nat, address: nat)
    requires Supported(cfg) && Shaped(cfg, table) && draw < WAYS && Legal(b) && address < WORD
    requires var way, variant := FillWay(cfg, table, b, draw), VariantFor(cfg, b);
      && way < WAYS && Holds(At(cfg, table, address, way), address) && variant > 0
      && HasRoom(At(cfg, table, b.ip, way), variant) && Subtag(address, variant) != Subtag(b.ip, variant)
    ensures var way := FillWay(cfg, table, b, draw);
      var before, after := At(cfg, table, address, way), At(cfg, FillTable(cfg, table, b, draw), address, way);
      && Holds(after, address) && after.data.variant == before.data.variant
      && after.data.entries[Subtag(address, after.data.variant)] ==
           before.data.entries[Subtag(address, before.data.variant)]
  {
    var way, variant := FillWay(cfg, table, b, draw), VariantFor(cfg, b);
    if Loc(cfg, address, way) == Loc(cfg, b.ip, way) {
      AddedKeeps(At(cfg, table, b.ip, way).data, b, variant, Subtag(address, variant));
    } else {
      TouchedLine(cfg, table[Loc(cfg, b.ip, way)], way, way);
    }
  }

  lemma FillThenLookup(cfg: Config, events: seq<Event>, b: Branch, draw: nat)
    requires Supported(cfg) && draw < WAYS && Legal(b) && forall i :: 0 <= i < |events| ==> LegalEvent(events[i])
    ensures var events' := events + [Learn(b, draw)];
      && HitWay(cfg, Run(cfg, events'), b.ip, 0) < WAYS
      && Found(cfg, Run(cfg, events'), b.ip) == Encode(b, VariantFor(cfg, b))
      && Predicted(cfg, Run(cfg, events'), b.ip) == b.target
  {
    ReachableInv(cfg, events);
    RoundTrip(cfg, Run(cfg, events), b, draw, Filled(events));
    assert (events + [Learn(b, draw)])[..|events|] == events;
  }

  /** In every reachable state a lookup that finds an entry of the branch itself, and not of another
      branch with the same hash, predicts a target once filled for that branch. */
  lemma HitIsSound(cfg: Config, events: seq<Event>, address: nat)
    requires Supported(cfg) && forall i :: 0 <= i < |events| ==> LegalEvent(events[i])
    requires address < WORD && HitWay(cfg, Run(cfg, events), address, 0) < WAYS
    ensures Found(cfg, Run(cfg, events), address).data < WORD
    ensures Found(cfg, Run(cfg, events), address).ip == address ==>
      exists b :: b in Filled(events) && b.ip == address && b.target == Predicted(cfg, Run(cfg, events), address)
  {
    ReachableInv(cfg, events);
    var table := Run(cfg, events);
    var way := HitWay(cfg, table, address, 0);
    var i := Loc(cfg, address, way);
    assert RowOk(cfg, table[i], i, Filled(events));
    var block := table[i][way].data;
    var tag := Subtag(address, block.variant);
    assert EntryOk(cfg, block.variant, tag, block.entries[tag], i, way, Filled(events));
  }

  /** The last fill of the address, and the last one that went to this way. */
  ghost function LastFill(events: seq<Event>, address: nat): Option<Branch> {
    if events == [] then None else
    var e := events[|events| - 1];
    if e.Learn? && e.branch.ip == address then Some(e.branch) else LastFill(events[..|events| - 1], address)
  }

  ghost function LastInto(cfg: Config, events: seq<Event>, address: nat, way: nat): Option<Branch>
    requires Supported(cfg) && forall i :: 0 <= i < |events| ==> LegalEvent(events[i])
  {
    if events == [] then None else
    var before, e := events[..|events| - 1], events[|events| - 1];
    assert LegalEvent(e);
    if FillsInto(cfg, Run(cfg, before), e, address, way) then Some(e.branch) else LastInto(cfg, before, address, way)
  }

  predicate FillsInto(cfg: Config, table: Table, e: Event, address: nat, way: nat)
    requires Supported(cfg) && Shaped(cfg, table) && LegalEvent(e)
  {
    e.Learn? && e.branch.ip == address && FillWay(cfg, table, e.branch, e.draw) == way
  }

  /** If the line has an entry of the branch itself, it stands for the last of these fills. */
  ghost predicate Current(line: Line<Block>, address: nat, last: Option<Branch>)
    requires address < WORD
  {
    Holds(line, address) && line.data.entries[Subtag(address, line.data.variant)].ip == address ==>
      var e := line.data.entries[Subtag(address, line.data.variant)];
      last.Some? && e.data < WORD && Decode(line.data.variant, address, e.data) == last.value.target
  }

  /** A branch added to a block leaves the entries of others as they are, if it keeps them. */
  lemma AddedCurrent(line: Line<Block>, line': Line<Block>, b: Branch, variant: nat, address: nat, last: Option<Branch>)
    requires Legal(b) && address < WORD && b.ip != address && Current(line, address, last)
    requires line'.data == Added(line.data, b, variant) && (line.valid || line.data == NO_BLOCK)
    ensures Current(line', address, last)
  {
    var tag := Subtag(address, variant);
    if tag in Kept(line.data, variant) {
      assert line.data.entries[tag] == Kept(line.data, variant)[tag] && variant == line.data.variant;
    }
  }

  lemma FillCurrent(cfg: Config, table: Table, b: Branch, draw: nat, address: nat, w: nat, last: Option<Branch>)
    requires Supported(cfg) && Shaped(cfg, table) && draw < WAYS && Legal(b) && address < WORD && w < WAYS
    requires forall i :: 0 <= i < cfg.sets ==> table[i][w].valid || table[i][w].data == NO_BLOCK
    requires Current(At(cfg, table, address, w), address, last)
    ensures Current(At(cfg, FillTable(cfg, table, b, draw), address, w), address,
                    if b.ip == address && FillWay(cfg, table, b, draw) == w then Some(b) else last)
  {
    var way := FillWay(cfg, table, b, draw);
    if way < WAYS {
      if w != way {
        FillElsewhere(cfg, table, b, draw, address, w);
      } else if b.ip == address {
        FilledAt(cfg, table, b, draw);
        EncodeDecodes(b, VariantFor(cfg, b));
      } else if Loc(cfg, address, w) == Loc(cfg, b.ip, w) {
        var line, line' := At(cfg, table, address, w), At(cfg, FillTable(cfg, table, b, draw), address, w);
        AddedCurrent(line, line', b, VariantFor(cfg, b), address, last);
      }
    }
  }

  lemma RefreshCurrent(cfg: Config, table: Table, hit: nat, address: nat, w: nat, last: Option<Branch>)
    requires Supported(cfg) && Shaped(cfg, table) && address < WORD && w < WAYS
    requires Current(At(cfg, table, address, w), address, last)
    ensures Current(At(cfg, Refresh(cfg, table, hit), address, w), address, last)
  {
    var way := HitWay(cfg, table, hit, 0);
    if way < WAYS {
      TouchedLine(cfg, table[Loc(cfg, hit, way)], way, w);
    }
  }

  lemma InvalidEmpty(cfg: Config, table: Table, filled: set<Branch>, w: nat)
    requires Supported(cfg) && Inv(cfg, table, filled) && w < WAYS
    ensures forall i :: 0 <= i < cfg.sets ==> table[i][w].valid || table[i][w].data == NO_BLOCK
  {
    forall i | 0 <= i < cfg.sets ensures table[i][w].valid || table[i][w].data == NO_BLOCK {
      assert RowOk(cfg, table[i], i, filled);
      assert LineOk(cfg, table[i][w], i, w, filled);
    }
  }

  lemma {:induction false} AlwaysCurrent(cfg: Config, events: seq<Event>, address: nat, w: nat)
    requires Supported(cfg) && forall i :: 0 <= i < |events| ==> LegalEvent(events[i])
    requires address < WORD && w < WAYS
    ensures Current(At(cfg, Run(cfg, events), address, w), address, LastInto(cfg, events, address, w))
  {
    if events != [] {
      var before := events[..|events| - 1];
      AlwaysCurrent(cfg, before, address, w);
      ReachableInv(cfg, before);
      InvalidEmpty(cfg, Run(cfg, before), Filled(before), w);
      match events[|events| - 1]
      case Learn(b, draw) =>
        FillCurrent(cfg, Run(cfg, before), b, draw, address, w, LastInto(cfg, before, address, w));
      case Hit(hit) => RefreshCurrent(cfg, Run(cfg, before), hit, address, w, LastInto(cfg, before, address, w));
    }
  }

  /** In every reachable state a lookup that finds an entry of the branch itself predicts the target of the last fill of
      that branch which went to the way found.  So it predicts the last target filled exactly when that is the target
      of the last fill to this way; an older one is left over when a later fill took another way. */
  lemma HitIsLastInto(cfg: Config, events: seq<Event>, address: nat)
    requires Supported(cfg) && forall i :: 0 <= i < |events| ==> LegalEvent(events[i])
    requires address < WORD && HitWay(cfg, Run(cfg, events), address, 0) < WAYS
    requires Found(cfg, Run(cfg, events), address).ip == address
    ensures Found(cfg, Run(cfg, events), address).data < WORD
    ensures var into := LastInto(cfg, events, address, HitWay(cfg, Run(cfg, events), address, 0));
      var last := LastFill(events, address);
      && into.Some? && last.Some? && Predicted(cfg, Run(cfg, events), address) == into.value.target
      && (Predicted(cfg, Run(cfg, events), address) == last.value.target <==> into.value.target == last.value.target)
  {
    var way := HitWay(cfg, Run(cfg, events), address, 0);
    AlwaysCurrent(cfg, events, address, way);
    IntoIsFill(cfg, events, address, way);
  }

  lemma {:induction false} IntoIsFill(cfg: Config, events: seq<Event>, address: nat, way: nat)
    requires Supported(cfg) && forall i :: 0 <= i < |events| ==> LegalEvent(events[i])
    ensures LastInto(cfg, events, address, way).Some? ==> LastFill(events, address).Some?
  {
    if events != [] {
      IntoIsFill(cfg, events[..|events| - 1], address, way);
    }
  }

  // ----- The buffer as the program runs it --------------------------------------------------

  class Mbtb {
    const cfg: Config
    const sets: seq<CacheSet<Block>>
    ghost var history: seq<Event>

    constructor (cfg: Config)
      requires Supported(cfg)
      ensures Valid() && history == [] && this.cfg == cfg && fresh(Repr())
    {
      this.cfg := cfg;
      history := [];
      var all: seq<CacheSet<Block>> := [];
      while |all| < cfg.sets
        invariant |all| <= cfg.sets
        invariant forall i :: 0 <= i < |all| ==> fresh(all[i].block) && all[i].block[..] == Blank(WAYS, NO_BLOCK)
        invariant forall i, j :: 0 <= i < j < |all| ==> all[i].block != all[j].block
      {
        var one := new CacheSet<Block>(WAYS, NO_BLOCK);
        all := all + [one];
      }
      sets := all;
    }

    ghost function Repr(): set<object>
    {
      set i | 0 <= i < |sets| :: sets[i].block
    }

    ghost predicate Valid()
      reads this, Repr()
    {
      && Supported(cfg) && |sets| == cfg.sets
      && (forall i :: 0 <= i < |history| ==> LegalEvent(history[i]))
      && (forall i, j :: 0 <= i < j < |sets| ==> sets[i].block != sets[j].block)
      && Loaded(Run(cfg, history))
    }

    /** The blocks hold this table. */
    ghost predicate Loaded(table: Table)
      reads Repr()
    {
      |sets| == |table| && forall i :: 0 <= i < |sets| ==> sets[i].block[..] == table[i]
    }

    ghost function View(): Table
      reads this, Repr()
      requires Valid()
    {
      Run(cfg, history)
    }

    /** The set index of every way for an address. */
    method Locations(address: nat) returns (loc: array<nat>)
      requires Supported(cfg)
      ensures fresh(loc) && loc.Length == WAYS && forall w :: 0 <= w < WAYS ==> loc[w] == Loc(cfg, address, w)
    {
      loc := new nat[WAYS];
      if cfg.skewed {
        GetSkewedSet(address / 4, cfg.bits, cfg.sets, loc);
      } else {
        var instruction := address / 4;
        var index: nat := Xor((instruction / 16384) % 16384, instruction % 16384) % Pow2(cfg.bits);
        var w := 0;
        while w < WAYS
          invariant 0 <= w <= WAYS && forall v :: 0 <= v < w ==> loc[v] == index
        {
          loc[w] := index;
          w := w + 1;
        }
      }
    }

    /** The first way that holds the address. */
    method GetWay(address: nat) returns (way: nat)
      requires Valid()
      ensures way == HitWay(cfg, View(), address, 0)
    {
      var loc := Locations(address);
      way := 0;
      while way < WAYS
        invariant 0 <= way <= WAYS && HitWay(cfg, View(), address, 0) == HitWay(cfg, View(), address, way)
      {
        var line := sets[loc[way]].block[way];
        if line.valid {
          var tag := Subtag(address, line.data.variant);
          if tag in line.data.entries {
            return;
          }
        }
        way := way + 1;
      }
    }

    /** The first way that is free. */
    method FindFree(address: nat) returns (way: nat)
      requires Valid()
      ensures way == FreeWay(cfg, View(), address, 0)
    {
      var loc := Locations(address);
      way := 0;
      while way < WAYS
        invariant 0 <= way <= WAYS && FreeWay(cfg, View(), address, 0) == FreeWay(cfg, View(), address, way)
      {
        if !sets[loc[way]].block[way].valid {
          return;
        }
        way := way + 1;
      }
    }

    /** A free way, or the least recently used one, or in a skewed table the one drawn. */
    method FindVictim(address: nat, draw: nat) returns (way: nat)
      requires Valid() && draw < WAYS
      ensures way == VictimWay(cfg, View(), address, draw)
    {
      if cfg.skewed {
        way := FindFree(address);
        if way == WAYS {
          way := draw;
        }
      } else {
        var loc := Locations(address);
        ReachableInv(cfg, history);
        assert RowOk(cfg, View()[loc[0]], loc[0], Filled(history));
        ghost var n: nat :| Ordered(View()[loc[0]], n);
        way := sets[loc[0]].LruVictim(n);
      }
    }

    /** The first block of the variant that has room. */
    method FindRoom(address: nat, variant: nat) returns (way: nat)
      requires Valid()
      ensures way == RoomWay(cfg, View(), address, variant, 0)
    {
      var loc := Locations(address);
      way := 0;
      while way < WAYS
        invariant 0 <= way <= WAYS
        invariant RoomWay(cfg, View(), address, variant, 0) == RoomWay(cfg, View(), address, variant, way)
      {
        var line := sets[loc[way]].block[way];
        if line.valid && line.data.variant == variant && |line.data.entries| < line.data.size {
          return;
        }
        way := way + 1;
      }
    }

    /** A block of the variant with room, or a victim. */
    method FindLocation(address: nat, variant: nat, draw: nat) returns (way: nat)
      requires Valid() && draw < WAYS
      ensures way == LocationFor(cfg, View(), address, variant, draw)
    {
      if cfg.skewed || variant > 0 {
        way := FindRoom(address, variant);
        if way < WAYS {
          return;
        }
      }
      way := FindVictim(address, draw);
    }

    /** The way that a fill uses. */
    method ChooseWay(b: Branch, variant: nat, draw: nat) returns (way: nat)
      requires Valid() && Legal(b) && draw < WAYS && variant == VariantFor(cfg, b)
      ensures way == FillWay(cfg, View(), b, draw) < WAYS
    {
      ReachableInv(cfg, history);
      FillWayFound(cfg, View(), b, draw, Filled(history));
      way := GetWay(b.ip);
      if way == WAYS {
        way := FindLocation(b.ip, variant, draw);
      }
    }

    /** `fill_btb` for this level. */
    method FillBtb(b: Branch, draw: nat)
      requires Valid() && Legal(b) && draw < WAYS
      modifies this`history, Repr()
      ensures Valid() && history == old(history) + [Learn(b, draw)]
    {
      var variant := GetVariant(cfg.top, FindAbsolute(b.ip, b.target));
      if b.isReturn {
        variant := cfg.top;
      }
      var way := ChooseWay(b, variant, draw);
      Store(b, variant, way, draw);
      RunNext(cfg, history, Learn(b, draw));
      history := history + [Learn(b, draw)];
    }

    /** Put a branch into the chosen way. */
    method Store(b: Branch, variant: nat, way: nat, ghost draw: nat)
      requires Valid() && Legal(b) && draw < WAYS
      requires variant == VariantFor(cfg, b) && way == FillWay(cfg, View(), b, draw) < WAYS
      modifies Repr()
      ensures Loaded(FillTable(cfg, old(View()), b, draw))
    {
      var loc := Locations(b.ip);
      ghost var table := View();
      ghost var i := loc[way];
      AddTo(sets[loc[way]], b, variant, way);
      assert sets[i].block[..] == FillTable(cfg, table, b, draw)[i];
    }

    /** Add a branch to the block of one way of a row. */
    method AddTo(row: CacheSet<Block>, b: Branch, variant: nat, way: nat)
      requires Legal(b) && way < row.block.Length
      modifies row.block
      ensures row.block[..] ==
        var line := old(row.block[way]);
        Touched(cfg, old(row.block[..]), way)[way := Line(true, line.tag, Added(line.data, b, variant), 0)]
    {
      UpdateReplacementState(row, way);
      var block := AddEntry(row.block[way].data, b, variant);
      row.block[way] := row.block[way].(valid := true, data := block);
    }

    method UpdateReplacementState(row: CacheSet<Block>, way: nat)
      requires way < row.block.Length
      modifies row.block
      ensures row.block[..] == Touched(cfg, old(row.block[..]), way) && row.block[way].lru == 0
    {
      if cfg.skewed {
        row.block[way] := row.block[way].(lru := 0);
      } else {
        row.LruUpdate(way);
      }
    }

    /** The block with the branch added, after making room for it. */
    method AddEntry(block: Block, b: Branch, variant: nat) returns (added: Block)
      requires Legal(b)
      ensures added == Added(block, b, variant)
    {
      var size := GetVariantSize(variant);
      var entries := block.entries;
      if variant != 0 {
        if variant == block.variant {
          if |entries| >= block.size {
            entries := entries - {Least(entries.Keys)};
          }
        } else {
          entries := map[];
        }
        entries := entries[Subtag(b.ip, variant) := Track(Sub64(b.target, b.ip), b.kind, b.ip)];
      } else {
        entries := map[Subtag(b.ip, variant) := Track(b.target, b.kind, b.ip)];
      }
      added := Block(variant, size, entries);
    }

    /** Look a branch up, and refresh its way when it is found. */
    method Lookup(address: nat) returns (hit: bool, e: Track)
      requires Valid() && address < WORD
      modifies this`history, Repr()
      ensures Valid() && history == old(history) + [Hit(address)]
      ensures hit <==> HitWay(cfg, old(View()), address, 0) < WAYS
      ensures hit ==> e == Found(cfg, old(View()), address)
    {
      hit, e := Probe(address);
      RunNext(cfg, history, Hit(address));
      history := history + [Hit(address)];
    }

    /** Read the entry of an address, if there is one, and refresh its way. */
    method Probe(address: nat) returns (hit: bool, e: Track)
      requires Valid()
      modifies Repr()
      ensures Loaded(Refresh(cfg, old(View()), address))
      ensures hit <==> HitWay(cfg, old(View()), address, 0) < WAYS
      ensures hit ==> e == Found(cfg, old(View()), address)
    {
      var way := GetWay(address);
      hit, e := way < WAYS, Track(0, 0, 0);
      if hit {
        var loc := Locations(address);
        var row := sets[loc[way]];
        var block := row.block[way].data;
        e := block.entries[Subtag(address, block.variant)];
        ghost var table := View();
        ghost var i := loc[way];
        UpdateReplacementState(row, way);
        assert sets[i].block[..] == Refresh(cfg, table, address)[i];
      }
    }
  }
}
