/** The hashed perceptron branch predictor.

    Global history is kept as twenty 12-bit words, shifted as one long register and folded into table
    indices.  Main results: the words are exactly the last 240 outcomes, an index depends on nothing
    but its own share of them and twelve address bits, and training moves the sum that was used
    towards the outcome by exactly the number of weights that are not saturated. */
module HashedPerceptron {
  import opened Bits

  const TABLES: nat := 16
  const TABLE_SIZE: nat := 4096
  const WORD_BITS: nat := 12
  const WORDS: nat := 20
  const SPEED: int := 18
  const LENGTHS: seq<nat> := [0, 3, 4, 6, 8, 10, 14, 19, 26, 36, 49, 67, 91, 125, 170, 232]

  // ----- Histories --------------------------------------------------------------------------

  /** Outcomes, the most recent first. */
  type History = seq<bool>

  /** The outcome k branches ago; not taken before the first branch. */
  function Outcome(h: History, k: nat): nat {
    if k < |h| && h[k] then 1 else 0
  }

  /** The outcomes from `from` up to `to` branches ago, packed with the most recent in the lowest bit. */
  function Pack(h: History, from: nat, end: nat): nat
    requires from <= end
    decreases end - from
  {
    if from == end then 0 else Outcome(h, from) + 2 * Pack(h, from + 1, end)
  }

  lemma {:induction false} PackTop(h: History, from: nat, end: nat)
    requires from <= end
    ensures Pack(h, from, end + 1) == Pack(h, from, end) + Pow2(end - from) * Outcome(h, end)
    decreases end - from
  {
    if from < end {
      PackTop(h, from + 1, end);
    }
  }

  lemma {:induction false} PackBound(h: History, from: nat, end: nat)
    requires from <= end
    ensures Pack(h, from, end) < Pow2(end - from)
    decreases end - from
  {
    if from < end {
      PackBound(h, from + 1, end);
    }
  }

  /** Bit k of a packed word is the outcome that many branches further back. */
  lemma {:induction false} PackBit(h: History, from: nat, end: nat, k: nat)
    requires from <= end
    ensures Bit(Pack(h, from, end), k) == if from + k < end then Outcome(h, from + k) else 0
    decreases end - from
  {
    if from == end {
      BitOfZero(k);
    } else if k > 0 {
      var j, next := k - 1, from + 1;
      PackBit(h, next, end, j);
      assert Pack(h, from, end) / 2 == Pack(h, next, end);
    }
  }

  lemma {:induction false} PackShift(h: History, b: bool, from: nat, end: nat)
    requires 0 < from <= end
    ensures Pack([b] + h, from, end) == Pack(h, from - 1, end - 1)
    decreases end - from
  {
    if from < end {
      PackShift(h, b, from + 1, end);
    }
  }

  /** The lowest bits of a packed word are its most recent outcomes. */
  lemma {:induction false} PackLow(h: History, from: nat, mid: nat, end: nat)
    requires from <= mid <= end
    ensures Pack(h, from, end) % Pow2(mid - from) == Pack(h, from, mid)
    decreases end - from
  {
    if from < mid {
      PackLow(h, from + 1, mid, end);
      LowBits(Outcome(h, from), Pack(h, from + 1, end), Pow2(mid - from - 1));
    } else {
      QuotientIs(Pack(h, from, end), 1, Pack(h, from, end));
    }
  }

  lemma LowBits(b: nat, x: nat, p: nat)
    requires b < 2 && p > 0
    ensures (b + 2 * x) % (2 * p) == b + 2 * (x % p)
  {
    var q := x / p;
    assert x == p * q + x % p;
    assert b + 2 * x == (2 * p) * q + (b + 2 * (x % p));
    QuotientIs(b + 2 * x, 2 * p, q);
  }

  /** Word i of the register when it holds this history. */
  function Word(h: History, i: nat): nat {
    Pack(h, WORD_BITS * i, WORD_BITS * i + WORD_BITS)
  }

  predicate WordsOf(words: seq<nat>, h: History) {
    |words| == WORDS && forall i :: 0 <= i < WORDS ==> words[i] == Word(h, i)
  }

  /** Bit k of word i is the outcome of the branch 12 * i + k branches ago. */
  lemma WordBit(words: seq<nat>, h: History, i: nat, k: nat)
    requires WordsOf(words, h) && i < WORDS && k < WORD_BITS
    ensures Bit(words[i], k) == Outcome(h, WORD_BITS * i + k)
  {
    PackBit(h, WORD_BITS * i, WORD_BITS * i + WORD_BITS, k);
  }

  /** The bit shifted into word i when outcome b arrives. */
  function Carry(h: History, b: bool, i: nat): nat {
    if i == 0 then (if b then 1 else 0) else Outcome(h, WORD_BITS * i - 1)
  }

  lemma Pow12()
    ensures Pow2(12) == TABLE_SIZE
  {
    assert Pow2(8) == 256;
  }

  /** One word shifted: its new value and the bit it hands on. */
  lemma ShiftWord(h: History, b: bool, i: nat)
    ensures var shifted := 2 * Word(h, i) + Carry(h, b, i);
      shifted % TABLE_SIZE == Word([b] + h, i) && shifted / TABLE_SIZE == Carry(h, b, i + 1)
  {
    var from, end := WORD_BITS * i, WORD_BITS * i + WORD_BITS;
    var h' := [b] + h;
    PackShift(h, b, from + 1, end + 1);
    assert Pack(h', from, end + 1) == Carry(h, b, i) + 2 * Word(h, i);
    PackTop(h', from, end);
    PackBound(h', from, end);
    Pow12();
    assert Outcome(h', end) == Carry(h, b, i + 1);
    QuotientIs(Pack(h', from, end + 1), TABLE_SIZE, Carry(h, b, i + 1));
  }

  // ----- Indices ----------------------------------------------------------------------------

  /** Xor of the first n words of the history. */
  function FoldWords(h: History, n: nat): nat {
    if n == 0 then 0 else Xor(FoldWords(h, n - 1), Word(h, n - 1))
  }

  /** The table index for a branch: the history of the table's length, folded, and the address. */
  function Index(h: History, pc: nat, length: nat): (x: nat)
    ensures x < TABLE_SIZE
  {
    var whole := length / WORD_BITS;
    Xor(Xor(FoldWords(h, whole), Pack(h, WORD_BITS * whole, length)), pc) % TABLE_SIZE
  }

  /** Two histories agree on the last n outcomes. */
  predicate SameRecent(g: History, h: History, n: nat) {
    forall k :: 0 <= k < n ==> Outcome(g, k) == Outcome(h, k)
  }

  lemma {:induction false} PackAgrees(g: History, h: History, from: nat, end: nat)
    requires from <= end && SameRecent(g, h, end)
    ensures Pack(g, from, end) == Pack(h, from, end)
    decreases end - from
  {
    if from < end {
      PackAgrees(g, h, from + 1, end);
    }
  }

  lemma {:induction false} FoldAgrees(g: History, h: History, n: nat)
    requires SameRecent(g, h, WORD_BITS * n)
    ensures FoldWords(g, n) == FoldWords(h, n)
  {
    if n > 0 {
      FoldAgrees(g, h, n - 1);
      PackAgrees(g, h, WORD_BITS * (n - 1), WORD_BITS * (n - 1) + WORD_BITS);
    }
  }

  lemma {:induction false} XorLow(a: nat, b: nat, n: nat)
    ensures Xor(a, b) % Pow2(n) == Xor(a % Pow2(n), b % Pow2(n))
  {
    if n == 0 {
      QuotientIs(a, 1, a);
      QuotientIs(b, 1, b);
      QuotientIs(Xor(a, b), 1, Xor(a, b));
    } else {
      var p := Pow2(n - 1);
      XorLow(a / 2, b / 2, n - 1);
      ModHalf(a, Pow2(n), p);
      ModHalf(b, Pow2(n), p);
      XorHalves(a, b);
      ModHalf(Xor(a, b), Pow2(n), p);
      XorHalves(a % Pow2(n), b % Pow2(n));
    }
  }

  lemma XorHalves(a: nat, b: nat)
    ensures Xor(a, b) == 2 * Xor(a / 2, b / 2) + (if a % 2 != b % 2 then 1 else 0)
    ensures Xor(a, b) / 2 == Xor(a / 2, b / 2)
  {}

  lemma ModHalf(a: nat, r: nat, p: nat)
    requires p > 0 && r == 2 * p
    ensures a % r == a % 2 + 2 * (a / 2 % p) && (a % r) / 2 == a / 2 % p && (a % r) % 2 == a % 2
  {
    LowBits(a % 2, a / 2, p);
  }

  /** An index depends only on the outcomes its table is entitled to and the low twelve bits of the
      address. */
  lemma IndexDependsOn(g: History, h: History, pc: nat, pc': nat, length: nat)
    requires SameRecent(g, h, length) && pc % TABLE_SIZE == pc' % TABLE_SIZE
    ensures Index(g, pc, length) == Index(h, pc', length)
  {
    var whole := length / WORD_BITS;
    FoldAgrees(g, h, whole);
    PackAgrees(g, h, WORD_BITS * whole, length);
    var x := Xor(FoldWords(h, whole), Pack(h, WORD_BITS * whole, length));
    Pow12();
    XorLow(x, pc, 12);
    XorLow(x, pc', 12);
  }

  /** How many of the outcomes k, k + 12, k + 24, .. branches ago, below n, were taken. */
  function Taken(h: History, k: nat, n: nat): nat {
    if n == 0 then 0 else Taken(h, k, n - 1) + if (n - 1) % WORD_BITS == k then Outcome(h, n - 1) else 0
  }

  lemma Column(w: nat, c: nat)
    requires c < WORD_BITS
    ensures (WORD_BITS * w + c) % WORD_BITS == c
  {}

  /** The first d outcomes of word w add the one of the column. */
  lemma {:induction false} TakenWithin(h: History, k: nat, w: nat, from: nat, d: nat)
    requires k < WORD_BITS && from == WORD_BITS * w && d <= WORD_BITS
    ensures Taken(h, k, from + d) == Taken(h, k, from) + if k < d then Outcome(h, from + k) else 0
  {
    if d > 0 {
      var c := d - 1;
      var n := from + c;
      Column(w, c);
      TakenWithin(h, k, w, from, c);
      assert Taken(h, k, n + 1) == Taken(h, k, n) + if c == k then Outcome(h, n) else 0;
    }
  }

  lemma {:induction false} FoldBit(h: History, n: nat, from: nat, k: nat)
    requires k < WORD_BITS && from == WORD_BITS * n
    ensures Bit(FoldWords(h, n), k) == Taken(h, k, from) % 2
  {
    if n == 0 {
      BitOfZero(k);
    } else {
      var m := n - 1;
      var low := WORD_BITS * m;
      FoldBit(h, m, low, k);
      var t := WordColumn(h, m, low, from, k);
      XorBit(FoldWords(h, m), Word(h, m), k);
      Parity(Taken(h, k, low), t);
    }
  }

  lemma Parity(t: nat, b: nat)
    ensures (t % 2 + b) % 2 == (t + b) % 2
  {}

  /** Bit k of word m. */
  lemma WordColumn(h: History, m: nat, low: nat, high: nat, k: nat) returns (t: nat)
    requires k < WORD_BITS && low == WORD_BITS * m && high == low + WORD_BITS
    ensures t == Bit(Word(h, m), k) && Taken(h, k, high) == Taken(h, k, low) + t
  {
    t := Outcome(h, low + k);
    PackBit(h, low, high, k);
    TakenWithin(h, k, m, low, WORD_BITS);
  }

  /** Bit k of an index is set exactly when of that bit of the address and the outcomes k, k + 12, k + 24, ..
      branches ago, as far as the table's history goes, an odd number is set; and there are twelve bits. */
  lemma IndexBit(h: History, pc: nat, length: nat, k: nat)
    ensures Bit(Index(h, pc, length), k) ==
      if k < WORD_BITS then (Bit(pc, k) + Taken(h, k, length)) % 2 else 0
  {
    var whole := length / WORD_BITS;
    var from := WORD_BITS * whole;
    var x := Xor(FoldWords(h, whole), Pack(h, from, length));
    Pow12();
    LowBit(Xor(x, pc), WORD_BITS, Index(h, pc, length), k);
    if k < WORD_BITS {
      XorBit(x, pc, k);
      HistoryBit(h, whole, from, length, k, x);
      Parity(Taken(h, k, length), Bit(pc, k));
    }
  }

  lemma HistoryBit(h: History, whole: nat, from: nat, length: nat, k: nat, x: nat)
    requires k < WORD_BITS && from == WORD_BITS * whole <= length < from + WORD_BITS
    requires x == Xor(FoldWords(h, whole), Pack(h, from, length))
    ensures Bit(x, k) == Taken(h, k, length) % 2
  {
    var rest := length - from;
    XorBit(FoldWords(h, whole), Pack(h, from, length), k);
    FoldBit(h, whole, from, k);
    PackBit(h, from, length, k);
    TakenWithin(h, k, whole, from, rest);
    Parity(Taken(h, k, from), if k < rest then Outcome(h, from + k) else 0);
  }

  // ----- Training ---------------------------------------------------------------------------

  function Sum(ws: seq<int>): int {
    if ws == [] then 0 else Sum(ws[..|ws| - 1]) + ws[|ws| - 1]
  }

  lemma SumNext(ws: seq<int>, w: int)
    ensures Sum(ws + [w]) == Sum(ws) + w
  {
    assert (ws + [w])[..|ws|] == ws;
  }

  predicate InRange(w: int) {
    -128 <= w <= 127
  }

  /** One step towards the outcome, saturating at 127 and -128. */
  function Nudge(w: int, taken: bool): int {
    if taken then (if w < 127 then w + 1 else w) else (if w > -128 then w - 1 else w)
  }

  function NudgeAll(ws: seq<int>, taken: bool): seq<int> {
    seq(|ws|, i requires 0 <= i < |ws| => Nudge(ws[i], taken))
  }

  /** How many weights can still move towards the outcome. */
  function Movable(ws: seq<int>, taken: bool): nat {
    if ws == [] then 0 else
    var w := ws[|ws| - 1];
    Movable(ws[..|ws| - 1], taken) + if (if taken then w < 127 else w > -128) then 1 else 0
  }

  /** Training moves the sum towards the outcome by exactly the number of unsaturated weights. */
  lemma {:induction false} TrainingMovesTowards(ws: seq<int>, taken: bool)
    ensures Sum(NudgeAll(ws, taken)) == Sum(ws) + (if taken then 1 else -1) * Movable(ws, taken)
  {
    if ws != [] {
      var n := |ws| - 1;
      TrainingMovesTowards(ws[..n], taken);
      assert NudgeAll(ws, taken)[..n] == NudgeAll(ws[..n], taken);
    }
  }

  lemma {:induction false} SumBounds(ws: seq<int>)
    requires forall i :: 0 <= i < |ws| ==> InRange(ws[i])
    ensures -128 * |ws| <= Sum(ws) <= 127 * |ws|
  {
    if ws != [] {
      SumBounds(ws[..|ws| - 1]);
    }
  }

  function Magnitude(y: int): nat {
    if y < 0 then -y else y
  }

  /** The adaptive threshold and its counter after one branch. */
  function NextTheta(theta: int, tc: int, y: int, correct: bool): (next: (int, int)) {
    if !correct then
      if tc + 1 >= SPEED then (theta + 1, 0) else (theta, tc + 1)
    else if Magnitude(y) < theta then
      if tc - 1 <= -SPEED then (theta - 1, 0) else (theta, tc - 1)
    else (theta, tc)
  }

  /** The threshold and its counter together count, in units of one, the mispredictions and against them the
      right predictions that were trained for their small sum. */
  lemma ThetaLedger(theta: int, tc: int, y: int, correct: bool)
    requires -SPEED < tc < SPEED
    ensures var (theta', tc') := NextTheta(theta, tc, y, correct);
      && -SPEED < tc' < SPEED
      && SPEED * theta' + tc' == SPEED * theta + tc + if !correct then 1 else if Magnitude(y) < theta then -1 else 0
  {}

  /** The threshold never becomes negative and its counter stays strictly between -SPEED and SPEED. */
  lemma ThetaStaysNatural(theta: int, tc: int, y: int, correct: bool)
    requires theta >= 0 && -SPEED < tc < SPEED
    ensures var (theta', tc') := NextTheta(theta, tc, y, correct);
      theta' >= 0 && -SPEED < tc' < SPEED && theta - 1 <= theta' <= theta + 1
  {}

  // ----- The predictor as the program runs it -----------------------------------------------

  class Predictor {
    const tables: array2<int>
    const ghistWords: array<nat>
    const indices: array<nat>
    var theta: int
    var tc: int
    var yout: int
    ghost var history: History

    constructor ()
      ensures Valid() && history == [] && theta == 10 && fresh(tables) && fresh(ghistWords) && fresh(indices)
    {
      tables := new int[TABLES, TABLE_SIZE]((i, x) => 0);
      ghistWords := new nat[WORDS](i => 0);
      indices := new nat[TABLES](i => 0);
      theta, tc, yout := 10, 0, 0;
      history := [];
      new;
      forall i | 0 <= i < WORDS ensures ghistWords[i] == Word([], i) {
        PackEmpty(WORD_BITS * i, WORD_BITS * i + WORD_BITS);
      }
    }

    ghost predicate Indexed()
      reads indices
    {
      && tables.Length0 == TABLES && tables.Length1 == TABLE_SIZE && indices.Length == TABLES
      && forall i :: 0 <= i < TABLES ==> indices[i] < TABLE_SIZE
    }

    ghost predicate Valid()
      reads this, tables, ghistWords, indices
    {
      && Indexed() && ghistWords.Length == WORDS && ghistWords != indices
      && WordsOf(ghistWords[..], history)
      && (forall i, x :: 0 <= i < TABLES && 0 <= x < TABLE_SIZE ==> InRange(tables[i, x]))
      && theta >= 0 && -SPEED < tc < SPEED
    }

    /** The weights that the current indices select. */
    ghost function Selected(): (ws: seq<int>)
      reads tables, indices
      requires Indexed()
      ensures |ws| == TABLES && forall i :: 0 <= i < TABLES ==> ws[i] == tables[i, indices[i]]
    {
      seq(TABLES, i requires 0 <= i < TABLES && Indexed() reads tables, indices => tables[i, indices[i]])
    }

    method FoldHistory(length: nat) returns (x: nat)
      requires Valid() && length <= 232
      ensures var whole := length / WORD_BITS;
        x == Xor(FoldWords(history, whole), Pack(history, WORD_BITS * whole, length))
    {
      x := 0;
      var mostWords := length / WORD_BITS;
      var lastWord := length % WORD_BITS;
      var j := 0;
      while j < mostWords
        invariant 0 <= j <= mostWords && x == FoldWords(history, j)
      {
        x := Xor(x, ghistWords[j]);
        j := j + 1;
      }
      PackLow(history, WORD_BITS * j, length, WORD_BITS * j + WORD_BITS);
      x := Xor(x, ghistWords[j] % Pow2(lastWord));
    }

    /** Choose and remember the index of one table; the weight there. */
    method SelectWeight(i: nat, pc: nat) returns (w: int)
      requires Valid() && i < TABLES
      modifies indices
      ensures Valid() && indices[i] == Index(history, pc, LENGTHS[i]) && w == tables[i, indices[i]]
      ensures forall j :: 0 <= j < TABLES && j != i ==> indices[j] == old(indices[j])
    {
      var x := FoldHistory(LENGTHS[i]);
      indices[i] := Xor(x, pc) % TABLE_SIZE;
      w := tables[i, indices[i]];
    }

    /** The first i tables have their indices, and `yout` is the sum of their weights ws. */
    ghost predicate Summed(pc: nat, i: nat, ws: seq<int>)
      reads this, tables, indices
    {
      && Indexed() && i <= TABLES && |ws| == i && yout == Sum(ws)
      && forall j :: 0 <= j < i ==> HasIndex(j, pc) && ws[j] == tables[j, indices[j]]
    }

    ghost predicate HasIndex(j: nat, pc: nat)
      reads this, indices
      requires indices.Length == TABLES && j < TABLES
    {
      indices[j] == Index(history, pc, LENGTHS[j])
    }

    /** Add the weight of one more table. */
    method AddWeight(pc: nat, i: nat, ghost ws: seq<int>) returns (i': nat, ghost ws': seq<int>)
      requires Valid() && Summed(pc, i, ws) && i < TABLES
      modifies this`yout, indices
      ensures Valid() && Summed(pc, i', ws') && i' == i + 1
    {
      ghost var before := indices[..];
      var w := SelectWeight(i, pc);
      assert forall j :: 0 <= j < i ==> indices[j] == before[j];
      SumNext(ws, w);
      yout := yout + w;
      i', ws' := i + 1, ws + [w];
    }

    /** Sum the selected weights; taken when the sum is at least one. */
    method PredictBranch(pc: nat) returns (taken: bool)
      requires Valid()
      modifies this`yout, indices
      ensures Valid()
      ensures forall i :: 0 <= i < TABLES ==> indices[i] == Index(history, pc, LENGTHS[i])
      ensures yout == Sum(Selected()) && taken == (yout >= 1)
    {
      yout := 0;
      ghost var ws: seq<int> := [];
      var i := 0;
      while i < TABLES
        invariant Valid() && Summed(pc, i, ws)
        decreases TABLES - i
      {
        i, ws := AddWeight(pc, i, ws);
      }
      assert forall j :: 0 <= j < TABLES ==> HasIndex(j, pc);
      assert ws == Selected();
      taken := yout >= 1;
    }

    /** Shift an outcome into the long history register. */
    method Shift(taken: bool)
      requires Valid()
      modifies this`history, ghistWords
      ensures Valid() && history == [taken] + old(history)
    {
      ghost var h := history;
      var b := if taken then 1 else 0;
      var i := 0;
      while i < WORDS
        invariant 0 <= i <= WORDS
        invariant b == Carry(h, taken, i)
        invariant forall j :: 0 <= j < i ==> ghistWords[j] == Word([taken] + h, j)
        invariant forall j :: i <= j < WORDS ==> ghistWords[j] == Word(h, j)
        modifies ghistWords
      {
        ShiftWord(h, taken, i);
        ghistWords[i] := 2 * ghistWords[i] + b;
        b := ghistWords[i] / TABLE_SIZE;
        ghistWords[i] := ghistWords[i] % TABLE_SIZE;
        i := i + 1;
      }
      history := [taken] + history;
    }

    /** Learn the outcome of the branch last predicted. */
    method LastBranchResult(taken: bool)
      requires Valid()
      modifies this`theta, this`tc, this`history, tables, ghistWords
      ensures Valid() && history == [taken] + old(history)
      ensures var correct := taken == (yout >= 1);
        && (theta, tc) == NextTheta(old(theta), old(tc), yout, correct)
        && Selected() == if !correct || Magnitude(yout) < old(theta) then NudgeAll(old(Selected()), taken)
          else old(Selected())
      ensures forall i, x :: 0 <= i < TABLES && 0 <= x < TABLE_SIZE && x != indices[i] ==>
        tables[i, x] == old(tables[i, x])
    {
      var correct := taken == (yout >= 1);
      ThetaStaysNatural(theta, tc, yout, correct);
      Shift(taken);
      var a := if yout < 0 then -yout else yout;
      if !correct || a < theta {
        Train(taken);
        if !correct {
          tc := tc + 1;
          if tc >= SPEED {
            theta, tc := theta + 1, 0;
          }
        } else if a < theta {
          tc := tc - 1;
          if tc <= -SPEED {
            theta, tc := theta - 1, 0;
          }
        }
      }
    }

    method Train(taken: bool)
      requires Valid()
      modifies tables
      ensures Valid() && Selected() == NudgeAll(old(Selected()), taken)
      ensures forall i, x :: 0 <= i < TABLES && 0 <= x < TABLE_SIZE && x != indices[i] ==>
        tables[i, x] == old(tables[i, x])
    {
      var i := 0;
      while i < TABLES
        invariant 0 <= i <= TABLES && Valid()
        invariant forall j, x :: 0 <= j < TABLES && 0 <= x < TABLE_SIZE ==>
          tables[j, x] == if j < i && x == indices[j] then Nudge(old(tables[j, x]), taken) else old(tables[j, x])
      {
        var x := indices[i];
        if taken {
          if tables[i, x] < 127 {
            tables[i, x] := tables[i, x] + 1;
          }
        } else {
          if tables[i, x] > -128 {
            tables[i, x] := tables[i, x] - 1;
          }
        }
        i := i + 1;
      }
    }
  }

  lemma {:induction false} PackEmpty(from: nat, end: nat)
    requires from <= end
    ensures Pack([], from, end) == 0
    decreases end - from
  {
    if from < end {
      PackEmpty(from + 1, end);
    }
  }
}
