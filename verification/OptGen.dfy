/** Occupancy-vector model of Belady's optimal replacement (Hawkeye's OPTgen).

    `OPTgen` is the imperative structure: a circular vector of occupancy counts, walked and
    bumped in place.  The rest of the module explains what its hit counter means.  A trace gives,
    for each time t, the start of the reuse interval [last, t) that ends there, if any.  The main
    results are that the circular vector computes the greedy choice over unbounded time, and that
    this greedy choice is a largest set of intervals with at most `cap` of them live at any time. */
module OptGen {

  import opened Bits
  import opened Common

  // ----- The circular vector ---------------------------------------------------------------

  /** Number of slots walked from `last` to `cur` on a ring of n slots. */
  function Distance(cur: nat, last: nat, n: nat): (d: nat)
    requires cur < n && last < n
    ensures d < n
  {
    if last <= cur then cur - last else cur + n - last
  }

  /** Slot i lies on the walk from `last` up to, and not including, `cur`. */
  predicate OnWalk(i: nat, cur: nat, last: nat) {
    if last <= cur then last <= i < cur else last <= i || i < cur
  }

  /** One step of the ring walk: the slots behind it grow by exactly the slot it leaves. */
  lemma WalkOne(i: nat, cur: nat, last: nat, n: nat) returns (next: nat)
    requires i < n && cur < n && last < n && OnWalk(i, cur, last)
    ensures next == (i + 1) % n < n && (next == cur || OnWalk(next, cur, last))
    ensures Distance(cur, next, n) < Distance(cur, i, n)
    ensures forall j: nat :: j < n ==> OnWalk(j, next, last) == (OnWalk(j, i, last) || j == i)
    ensures !OnWalk(i, i, last)
  {
    next := if i + 1 == n then 0 else i + 1;
    Wrap(i, n);
  }

  lemma Wrap(i: nat, n: nat)
    requires i < n
    ensures (i + 1) % n == if i + 1 == n then 0 else i + 1
  {}

  /** Every slot of the walk still has room. */
  predicate HasRoom(live: seq<nat>, cap: nat, cur: nat, last: nat) {
    forall i :: 0 <= i < |live| && OnWalk(i, cur, last) ==> live[i] < cap
  }

  /** One more live line on every slot of the walk. */
  function Occupy(live: seq<nat>, cur: nat, last: nat): seq<nat> {
    seq(|live|, i requires 0 <= i < |live| => if OnWalk(i, cur, last) then live[i] + 1 else live[i])
  }

  /** Everything an OPTgen object stores, as one value. */
  datatype Counters = Counters(live: seq<nat>, cached: nat, rejected: nat, accesses: nat)

  function Empty(n: nat): Counters {
    Counters(seq(n, _ => 0), 0, 0, 0)
  }

  function AfterAccess(s: Counters, cur: nat): Counters
    requires cur < |s.live|
  {
    s.(live := s.live[cur := 0], accesses := s.accesses + 1)
  }

  function AfterQuery(s: Counters, cap: nat, cur: nat, last: nat): Counters {
    if HasRoom(s.live, cap, cur, last)
    then s.(live := Occupy(s.live, cur, last), cached := s.cached + 1)
    else s.(rejected := s.rejected + 1)
  }

  /** From a slot to itself the walk is empty, and the answer is always yes. */
  lemma EmptyWalk(s: Counters, cap: nat, cur: nat)
    ensures AfterQuery(s, cap, cur, cur) == s.(cached := s.cached + 1)
  {
    assert Occupy(s.live, cur, cur) == s.live;
  }

  class OPTgen {
    const livenessHistory: array<nat>
    var numCache: nat
    var numDontCache: nat
    var access: nat
    const cacheSize: nat

    constructor (vectorSize: nat, size: nat)
      requires 0 < vectorSize
      ensures fresh(livenessHistory) && cacheSize == size
      ensures State() == Empty(vectorSize)
    {
      livenessHistory := new nat[vectorSize](_ => 0);
      numCache, numDontCache, access, cacheSize := 0, 0, 0, size;
      new;
      assert livenessHistory[..] == Empty(vectorSize).live;
    }

    ghost function State(): Counters
      reads this, livenessHistory
    {
      Counters(livenessHistory[..], numCache, numDontCache, access)
    }

    method AddAccess(currQuanta: nat)
      requires currQuanta < livenessHistory.Length
      modifies this`access, livenessHistory
      ensures State() == AfterAccess(old(State()), currQuanta)
    {
      access := access + 1;
      livenessHistory[currQuanta] := 0;
    }

    method AddPrefetch(currQuanta: nat)
      requires currQuanta < livenessHistory.Length
      modifies livenessHistory
      ensures livenessHistory[..] == old(livenessHistory[..])[currQuanta := 0]
    {
      livenessHistory[currQuanta] := 0;
    }

    method ShouldCache(currQuanta: nat, lastQuanta: nat) returns (isCache: bool)
      requires currQuanta < livenessHistory.Length && lastQuanta < livenessHistory.Length
      modifies this`numCache, this`numDontCache, livenessHistory
      ensures isCache == HasRoom(old(livenessHistory[..]), cacheSize, currQuanta, lastQuanta)
      ensures State() == AfterQuery(old(State()), cacheSize, currQuanta, lastQuanta)
    {
      isCache := true;
      var n := livenessHistory.Length;
      var i: nat := lastQuanta;
      while i != currQuanta
        invariant i == currQuanta || (i < n && OnWalk(i, currQuanta, lastQuanta))
        invariant isCache && HasRoom(livenessHistory[..], cacheSize, i, lastQuanta)
        decreases Distance(currQuanta, i, n)
        modifies {}
      {
        if livenessHistory[i] >= cacheSize {
          isCache := false;
          break;
        }
        ghost var _ := WalkOne(i, currQuanta, lastQuanta, n);
        i := (i + 1) % n;
      }
      if isCache {
        i := lastQuanta;
        ghost var was := livenessHistory[..];
        while i != currQuanta
          invariant i == currQuanta || (i < n && OnWalk(i, currQuanta, lastQuanta))
          invariant livenessHistory[..] == Occupy(was, i, lastQuanta)
          decreases Distance(currQuanta, i, n)
          modifies livenessHistory
        {
          livenessHistory[i] := livenessHistory[i] + 1;
          ghost var _ := WalkOne(i, currQuanta, lastQuanta, n);
          i := (i + 1) % n;
        }
        numCache := numCache + 1;
      } else {
        numDontCache := numDontCache + 1;
      }
    }

    method GetNumOptHits() returns (hits: nat)
      ensures hits == State().cached
    {
      hits := numCache;
    }
  }

  // ----- Traces and the protocol of the caller ----------------------------------------------

  /** trace[t] is the time of the previous access to the line touched at time t, when that access
      is recent enough for the caller to ask about it. */
  type Trace = seq<Option<nat>>

  /** The caller asks only about reuse distances of at most n, the vector length. */
  predicate WellTimed(trace: Trace, n: nat) {
    forall t :: 0 <= t < |trace| && trace[t].Some? ==> trace[t].value <= t <= trace[t].value + n
  }

  /** The state after one access per time step: a query when there is a reuse, then the reset of
      the current slot. */
  function Run(trace: Trace, n: nat, cap: nat): (s: Counters)
    requires 0 < n
    ensures |s.live| == n
  {
    if trace == [] then Empty(n) else
    var t := |trace| - 1;
    var before := Run(trace[..t], n, cap);
    AfterAccess(Asked(before, trace[t], n, cap, t), t % n)
  }

  function Asked(s: Counters, last: Option<nat>, n: nat, cap: nat, t: nat): (asked: Counters)
    requires 0 < n
    ensures |asked.live| == |s.live|
  {
    if last.Some? then AfterQuery(s, cap, t % n, last.value % n) else s
  }

  /** How many times of the trace have a reuse. */
  function Reuses(trace: Trace): nat {
    if trace == [] then 0 else Reuses(trace[..|trace| - 1]) + One(trace[|trace| - 1].Some?)
  }

  /** Every time step is one access, and every reuse is either a hit or a rejection. */
  lemma {:induction false} RunCounts(trace: Trace, n: nat, cap: nat)
    requires 0 < n
    ensures var s := Run(trace, n, cap); s.accesses == |trace| && s.cached + s.rejected == Reuses(trace)
  {
    if trace != [] {
      RunCounts(trace[..|trace| - 1], n, cap);
    }
  }

  /** No slot ever counts more live lines than the cache holds, so the counts cannot overflow. */
  lemma {:induction false} LiveBounded(trace: Trace, n: nat, cap: nat)
    requires 0 < n
    ensures forall i :: 0 <= i < n ==> Run(trace, n, cap).live[i] <= cap
  {
    if trace != [] {
      LiveBounded(trace[..|trace| - 1], n, cap);
    }
  }

  /** The caller's loop over one set's accesses. */
  method Replay(trace: Trace, n: nat, cap: nat) returns (g: OPTgen)
    requires 0 < n
    ensures fresh(g) && fresh(g.livenessHistory)
    ensures g.State() == Run(trace, n, cap)
  {
    g := new OPTgen(n, cap);
    var t := 0;
    while t < |trace|
      invariant 0 <= t <= |trace|
      invariant fresh(g) && fresh(g.livenessHistory) && g.livenessHistory.Length == n && g.cacheSize == cap
      invariant g.State() == Run(trace[..t], n, cap)
    {
      if trace[t].Some? {
        var _ := g.ShouldCache(t % n, trace[t].value % n);
      }
      g.AddAccess(t % n);
      assert trace[..t + 1][..t] == trace[..t];
      t := t + 1;
    }
    assert trace[..t] == trace;
  }

  // ----- Sets of intervals ------------------------------------------------------------------

  /** The interval ending at t covers time tau. */
  predicate Covers(trace: Trace, t: nat, tau: nat) {
    t < |trace| && trace[t].Some? && trace[t].value <= tau < t
  }

  /** How many chosen intervals are live at tau; intervals are named by their end times. */
  ghost function Load(trace: Trace, chosen: set<nat>, tau: nat): nat {
    |set t | t in chosen && Covers(trace, t, tau)|
  }

  /** chosen names reuse intervals of the trace and never keeps more than cap lines at a time. */
  ghost predicate Feasible(trace: Trace, cap: nat, chosen: set<nat>) {
    && (forall t :: t in chosen ==> t < |trace| && trace[t].Some?)
    && (forall tau: nat :: Load(trace, chosen, tau) <= cap)
  }

  /** The greedy choice among the intervals that end before t, by increasing end time. */
  ghost function Greedy(trace: Trace, cap: nat, t: nat): (chosen: set<nat>)
    requires t <= |trace|
    ensures forall x :: x in chosen ==> x < t && trace[x].Some?
  {
    if t == 0 then {} else
    var before := Greedy(trace, cap, t - 1);
    if trace[t - 1].Some? && (forall tau: nat :: Covers(trace, t - 1, tau) ==> Load(trace, before, tau) < cap)
    then before + {t - 1} else before
  }

  /** The chosen intervals that end before t. */
  function Before(chosen: set<nat>, t: nat): set<nat> {
    set x | x in chosen && x < t
  }

  lemma LoadAdd(trace: Trace, chosen: set<nat>, x: nat, tau: nat)
    requires x !in chosen
    ensures Load(trace, chosen + {x}, tau) == Load(trace, chosen, tau) + if Covers(trace, x, tau) then 1 else 0
  {
    var old_ := set t | t in chosen && Covers(trace, t, tau);
    var new_ := set t | t in chosen + {x} && Covers(trace, t, tau);
    assert new_ == if Covers(trace, x, tau) then old_ + {x} else old_;
  }

  lemma LoadRemove(trace: Trace, chosen: set<nat>, x: nat, tau: nat)
    requires x in chosen
    ensures Load(trace, chosen, tau) == Load(trace, chosen - {x}, tau) + if Covers(trace, x, tau) then 1 else 0
  {
    assert chosen - {x} + {x} == chosen;
    LoadAdd(trace, chosen - {x}, x, tau);
  }

  lemma {:induction false} GreedyFeasible(trace: Trace, cap: nat, t: nat)
    requires t <= |trace|
    ensures Feasible(trace, cap, Greedy(trace, cap, t))
  {
    if t == 0 {
      forall tau: nat ensures Load(trace, {}, tau) <= cap {
        assert (set x: nat | x in {} && Covers(trace, x, tau)) == {};
      }
    } else {
      GreedyFeasible(trace, cap, t - 1);
      forall tau: nat ensures Load(trace, Greedy(trace, cap, t), tau) <= cap {
        LoadAdd(trace, Greedy(trace, cap, t - 1), t - 1, tau);
      }
    }
  }

  // ----- Optimality: an exchange argument ---------------------------------------------------

  /** Interval x starts before t and ends after it, outside the greedy prefix. */
  predicate Crosses(trace: Trace, x: nat, t: nat) {
    t < x < |trace| && trace[x].Some? && trace[x].value < t
  }

  /** Among the crossing intervals of a set, one that starts first. */
  lemma FirstCrossing(trace: Trace, s: set<nat>, t: nat) returns (j: nat)
    requires s != {} && forall x :: x in s ==> Crosses(trace, x, t)
    ensures j in s && Crosses(trace, j, t)
    ensures forall x :: x in s ==> Crosses(trace, x, t) && trace[j].value <= trace[x].value
  {
    j :| j in s;
    if s != {j} {
      var k := FirstCrossing(trace, s - {j}, t);
      if trace[k].value < trace[j].value {
        j := k;
      }
    }
  }

  /** A feasible set that agrees with the greedy choice before t can be changed, without becoming
      smaller, to agree with it at t too. */
  lemma Exchange(trace: Trace, cap: nat, t: nat, chosen: set<nat>) returns (better: set<nat>)
    requires t < |trace| && Feasible(trace, cap, chosen)
    requires Before(chosen, t) == Greedy(trace, cap, t)
    ensures Feasible(trace, cap, better) && |better| >= |chosen|
    ensures Before(better, t + 1) == Greedy(trace, cap, t + 1)
  {
    var before := Greedy(trace, cap, t);
    if t in Greedy(trace, cap, t + 1) {
      if t in chosen {
        better := chosen;
      } else {
        better := chosen + {t};
        var crossing := set x | x in chosen && Crosses(trace, x, t);
        if crossing == {} {
          NoCrossingLoad(trace, cap, t, chosen);
        } else {
          var j := FirstCrossing(trace, crossing, t);
          better := chosen + {t} - {j};
          SwapLoad(trace, cap, t, chosen, j);
        }
      }
    } else {
      better := chosen;
      if t in chosen {
        var tau: nat :| Covers(trace, t, tau) && Load(trace, before, tau) >= cap;
        LoadRemove(trace, chosen, t, tau);
        LoadMonotone(trace, before, chosen - {t}, tau);
        assert false;
      }
    }
  }

  lemma LoadMonotone(trace: Trace, small: set<nat>, large: set<nat>, tau: nat)
    requires small <= large
    ensures Load(trace, small, tau) <= Load(trace, large, tau)
  {
    SubsetSize(set t | t in small && Covers(trace, t, tau), set t | t in large && Covers(trace, t, tau));
  }

  /** Where no chosen interval crosses t, the load just before t is that of the greedy prefix. */
  lemma PrefixLoad(trace: Trace, t: nat, chosen: set<nat>, tau: nat)
    requires tau < t
    requires forall x :: x in chosen && Crosses(trace, x, t) ==> tau < trace[x].value
    requires t !in chosen
    ensures Load(trace, chosen, tau) == Load(trace, Before(chosen, t), tau)
  {
    var prefix := Before(chosen, t);
    assert (set x | x in chosen && Covers(trace, x, tau)) == (set x | x in prefix && Covers(trace, x, tau));
  }

  lemma NoCrossingLoad(trace: Trace, cap: nat, t: nat, chosen: set<nat>)
    requires t < |trace| && t !in chosen && Feasible(trace, cap, chosen)
    requires Before(chosen, t) == Greedy(trace, cap, t) && t in Greedy(trace, cap, t + 1)
    requires forall x :: x in chosen ==> !Crosses(trace, x, t)
    ensures Feasible(trace, cap, chosen + {t})
  {
    forall tau: nat ensures Load(trace, chosen + {t}, tau) <= cap {
      LoadAdd(trace, chosen, t, tau);
      if Covers(trace, t, tau) {
        PrefixLoad(trace, t, chosen, tau);
      }
    }
  }

  lemma SwapLoad(trace: Trace, cap: nat, t: nat, chosen: set<nat>, j: nat)
    requires t < |trace| && t !in chosen && Feasible(trace, cap, chosen)
    requires Before(chosen, t) == Greedy(trace, cap, t) && t in Greedy(trace, cap, t + 1)
    requires j in chosen && Crosses(trace, j, t)
    requires forall x :: x in chosen && Crosses(trace, x, t) ==> trace[j].value <= trace[x].value
    ensures Feasible(trace, cap, chosen + {t} - {j})
  {
    forall tau: nat ensures Load(trace, chosen + {t} - {j}, tau) <= cap {
      LoadAdd(trace, chosen, t, tau);
      LoadRemove(trace, chosen + {t}, j, tau);
      if Covers(trace, t, tau) && tau < trace[j].value {
        PrefixLoad(trace, t, chosen, tau);
      }
    }
  }

  /** Every feasible set is at most as large as the greedy one. */
  lemma {:induction false} GreedyLargest(trace: Trace, cap: nat, t: nat, chosen: set<nat>)
    requires t <= |trace| && Feasible(trace, cap, chosen)
    requires Before(chosen, t) == Greedy(trace, cap, t)
    ensures |chosen| <= |Greedy(trace, cap, |trace|)|
    decreases |trace| - t
  {
    if t == |trace| {
      assert chosen == Before(chosen, t);
    } else {
      var better := Exchange(trace, cap, t, chosen);
      GreedyLargest(trace, cap, t + 1, better);
    }
  }

  // ----- The ring computes the greedy choice ------------------------------------------------

  /** The trace without the reuses at distance exactly n, for which the ring walk is empty. */
  function Short(trace: Trace, n: nat): (short: Trace)
    ensures |short| == |trace|
  {
    seq(|trace|, t requires 0 <= t < |trace| =>
      if trace[t].Some? && trace[t].value + n == t && n > 0 then None else trace[t])
  }

  /** How many of the first t reuses are at distance exactly n. */
  function FullTurns(trace: Trace, n: nat, t: nat): (count: nat)
    requires t <= |trace|
  {
    if t == 0 then 0 else
    FullTurns(trace, n, t - 1) + if trace[t - 1] != Short(trace, n)[t - 1] then 1 else 0
  }

  lemma ModAt(x: nat, q: nat, n: nat)
    requires q * n <= x < q * n + n
    ensures x % n == x - q * n
  {
    var k := x / n - q;
    assert x == n * (x / n) + x % n && n * (x / n) == n * q + n * k;
    assert n * -k == -(n * k);
    if k >= 1 { Grows(n, k); }
    if k <= -1 { Grows(n, -k); }
  }

  /** The residues of the last n times before t, relative to that of t. */
  lemma ModWindow(x: nat, t: nat, n: nat)
    requires x <= t < x + n
    ensures x % n == if t - t % n <= x then x - (t - t % n) else x - (t - t % n) + n
  {
    var q := t / n;
    ModAt(t, q, n);
    if q * n <= x {
      ModAt(x, q, n);
    } else {
      assert (q - 1) * n == q * n - n;
      ModAt(x, q - 1, n);
    }
  }

  /** Inside the last n times, the ring walk from `last` to t visits exactly the times since `last`,
      and only slot t itself is reused. */
  lemma RingWalk(tau: nat, t: nat, last: nat, n: nat)
    requires 0 < n && t <= tau + n && tau < t && t < last + n && last <= t
    ensures OnWalk(tau % n, t % n, last % n) <==> last <= tau
    ensures t < tau + n ==> tau % n != t % n
  {
    ModWindow(last, t, n);
    if t < tau + n {
      ModWindow(tau, t, n);
    } else {
      FullTurn(t, n);
    }
  }

  /** After t steps the ring holds, for each of the last n times, the load of the greedy choice. */
  ghost predicate Tracks(trace: Trace, n: nat, cap: nat, t: nat)
    requires 0 < n && t <= |trace|
  {
    var s := Run(trace[..t], n, cap);
    var chosen := Greedy(Short(trace, n), cap, t);
    && s.cached == |chosen| + FullTurns(trace, n, t)
    && forall tau: nat :: t <= tau + n && tau < t ==> s.live[tau % n] == Load(Short(trace, n), chosen, tau)
  }

  lemma {:induction false} RunTracks(trace: Trace, n: nat, cap: nat, t: nat)
    requires 0 < n && t <= |trace| && WellTimed(trace, n)
    ensures Tracks(trace, n, cap, t)
  {
    if t > 0 {
      RunTracks(trace, n, cap, t - 1);
      assert trace[..t][..t - 1] == trace[..t - 1];
      TrackStep(trace, n, cap, t - 1);
    }
  }

  /** Outside slot t itself, the ring holds the load of these intervals at the last n times. */
  ghost predicate HoldsLoads(live: seq<nat>, trace: Trace, chosen: set<nat>, n: nat, t: nat)
    requires 0 < n == |live|
  {
    forall tau: nat :: t < tau + n && tau < t ==> live[tau % n] == Load(trace, chosen, tau)
  }

  /** What the query at time t does to the part of the ring that holds the last n times. */
  lemma QueryTracks(trace: Trace, n: nat, cap: nat, t: nat)
    requires 0 < n && t < |trace| && trace[t].Some? && trace[t].value <= t < trace[t].value + n
    requires Tracks(trace, n, cap, t)
    ensures var short := Short(trace, n);
      var s := Run(trace[..t], n, cap);
      var asked := AfterQuery(s, cap, t % n, trace[t].value % n);
      && asked.cached == |Greedy(short, cap, t + 1)| + FullTurns(trace, n, t)
      && HoldsLoads(asked.live, short, Greedy(short, cap, t + 1), n, t)
  {
    var short := Short(trace, n);
    var s := Run(trace[..t], n, cap);
    var chosen := Greedy(short, cap, t);
    var last := trace[t].value;
    forall tau: nat | t < tau + n && tau < t
      ensures OnWalk(tau % n, t % n, last % n) <==> Covers(short, t, tau)
      ensures Load(short, chosen + {t}, tau) == Load(short, chosen, tau) + if Covers(short, t, tau) then 1 else 0
    {
      RingWalk(tau, t, last, n);
      LoadAdd(short, chosen, t, tau);
    }
    if HasRoom(s.live, cap, t % n, last % n) {
      forall tau: nat | Covers(short, t, tau) ensures Load(short, chosen, tau) < cap {
        RingWalk(tau, t, last, n);
        assert s.live[tau % n] < cap;
      }
    } else {
      var i :| 0 <= i < n && OnWalk(i, t % n, last % n) && s.live[i] >= cap;
      var tau := TimeOfSlot(i, t, n, last);
      assert s.live[tau % n] >= cap && Covers(short, t, tau);
    }
  }

  /** Every slot on the walk is the slot of a time in the interval. */
  lemma TimeOfSlot(i: nat, t: nat, n: nat, last: nat) returns (tau: nat)
    requires i < n && last <= t < last + n && OnWalk(i, t % n, last % n)
    ensures last <= tau < t && tau % n == i
  {
    ModWindow(last, t, n);
    tau := t - t % n + if i < t % n then i else i - n;
    ModWindow(tau, t, n);
  }

  /** What an access does that is no reuse closer than a full turn: at most it is counted. */
  lemma SkipCounts(trace: Trace, n: nat, cap: nat, t: nat, s: Counters)
    requires 0 < n && t < |trace|
    requires trace[t].Some? ==> trace[t].value + n == t
    ensures var asked := Asked(s, trace[t], n, cap, t);
      && asked.live == s.live
      && asked.cached == s.cached + if trace[t].Some? then 1 else 0
  {
    if trace[t].Some? {
      FullTurn(t, n);
      EmptyWalk(s, cap, t % n);
    }
  }

  /** The state after the query, whether there is a near reuse, one a full turn away, or none. */
  lemma AskTracks(trace: Trace, n: nat, cap: nat, t: nat, asked: Counters)
    requires 0 < n && t < |trace| && WellTimed(trace, n) && Tracks(trace, n, cap, t)
    requires asked == Asked(Run(trace[..t], n, cap), trace[t], n, cap, t)
    ensures var chosen := Greedy(Short(trace, n), cap, t + 1);
      && asked.cached == |chosen| + FullTurns(trace, n, t + 1)
      && HoldsLoads(asked.live, Short(trace, n), chosen, n, t)
  {
    if trace[t].Some? && trace[t].value + n != t {
      QueryTracks(trace, n, cap, t);
    } else {
      SkipCounts(trace, n, cap, t, Run(trace[..t], n, cap));
    }
  }

  lemma TrackStep(trace: Trace, n: nat, cap: nat, t: nat)
    requires 0 < n && t < |trace| && WellTimed(trace, n) && Tracks(trace, n, cap, t)
    ensures Tracks(trace, n, cap, t + 1)
  {
    assert trace[..t + 1][..t] == trace[..t];
    AskTracks(trace, n, cap, t, Asked(Run(trace[..t], n, cap), trace[t], n, cap, t));
    var short := Short(trace, n);
    var chosen := Greedy(short, cap, t + 1);
    assert Load(short, chosen, t) == 0 by {
      assert (set x | x in chosen && Covers(short, x, t)) == {};
    }
    forall tau: nat | t < tau + n && tau < t ensures tau % n != t % n {
      RingWalk(tau, t, t, n);
    }
  }

  lemma FullTurn(t: nat, n: nat)
    requires 0 < n <= t
    ensures (t - n) % n == t % n
  {
    var q := t / n;
    assert q * n <= t < q * n + n;
    ModAt(t, q, n);
    assert (q - 1) * n == q * n - n;
    ModAt(t - n, q - 1, n);
  }

  // ----- What the hit counter means ---------------------------------------------------------

  /** k is the largest number of intervals that can be kept with at most cap live at any time. */
  ghost predicate IsOptimum(trace: Trace, cap: nat, k: int) {
    && (exists chosen :: Feasible(trace, cap, chosen) && |chosen| == k)
    && (forall chosen :: Feasible(trace, cap, chosen) ==> |chosen| <= k)
  }

  lemma GreedyOptimal(trace: Trace, cap: nat)
    ensures IsOptimum(trace, cap, |Greedy(trace, cap, |trace|)|)
  {
    GreedyFeasible(trace, cap, |trace|);
    forall chosen | Feasible(trace, cap, chosen)
      ensures |chosen| <= |Greedy(trace, cap, |trace|)|
    {
      assert Before(chosen, 0) == {};
      GreedyLargest(trace, cap, 0, chosen);
    }
  }

  /** For every run of the caller's protocol, the counter is the optimum over the reuses at distance
      below n plus the number of reuses at distance exactly n, and it never undercounts. */
  lemma HitsCount(trace: Trace, n: nat, cap: nat)
    requires 0 < n && WellTimed(trace, n)
    ensures IsOptimum(Short(trace, n), cap, Run(trace, n, cap).cached - FullTurns(trace, n, |trace|))
    ensures forall chosen :: Feasible(trace, cap, chosen) ==> |chosen| <= Run(trace, n, cap).cached
  {
    var short := Short(trace, n);
    RunTracks(trace, n, cap, |trace|);
    assert trace[..|trace|] == trace;
    GreedyOptimal(short, cap);
    forall chosen | Feasible(trace, cap, chosen) ensures |chosen| <= Run(trace, n, cap).cached {
      var (kept, rest) := Split(trace, n, chosen);
      ShortFeasible(trace, n, cap, chosen, kept);
      FullTurnsBound(trace, n, |trace|, rest);
      assert chosen == kept + rest;
    }
  }

  /** When every reuse is closer than the vector length, the counter is the optimum. */
  lemma HitsOptimal(trace: Trace, n: nat, cap: nat)
    requires 0 < n && WellTimed(trace, n)
    requires forall t :: 0 <= t < |trace| && trace[t].Some? ==> t < trace[t].value + n
    ensures IsOptimum(trace, cap, Run(trace, n, cap).cached)
  {
    HitsCount(trace, n, cap);
    assert Short(trace, n) == trace;
    NoFullTurns(trace, n, |trace|);
  }

  lemma {:induction false} NoFullTurns(trace: Trace, n: nat, t: nat)
    requires t <= |trace| && Short(trace, n) == trace
    ensures FullTurns(trace, n, t) == 0
  {
    if t > 0 {
      NoFullTurns(trace, n, t - 1);
    }
  }

  ghost function Split(trace: Trace, n: nat, chosen: set<nat>): (parts: (set<nat>, set<nat>)) {
    (set t | t in chosen && t < |trace| && Short(trace, n)[t] == trace[t],
     set t | t in chosen && !(t < |trace| && Short(trace, n)[t] == trace[t]))
  }

  lemma ShortFeasible(trace: Trace, n: nat, cap: nat, chosen: set<nat>, kept: set<nat>)
    requires Feasible(trace, cap, chosen) && kept == Split(trace, n, chosen).0
    ensures Feasible(Short(trace, n), cap, kept)
  {
    forall tau: nat ensures Load(Short(trace, n), kept, tau) <= cap {
      assert (set t | t in kept && Covers(Short(trace, n), t, tau)) == (set t | t in kept && Covers(trace, t, tau));
      LoadMonotone(trace, kept, chosen, tau);
    }
  }

  lemma {:induction false} FullTurnsBound(trace: Trace, n: nat, t: nat, s: set<nat>)
    requires t <= |trace| && forall x :: x in s ==> x < t && Short(trace, n)[x] != trace[x]
    ensures |s| <= FullTurns(trace, n, t)
  {
    if t == 0 {
      assert s == {};
    } else {
      FullTurnsBound(trace, n, t - 1, s - {t - 1});
    }
  }

  /** A reuse at distance exactly n is always counted as a hit, whatever the ring holds; the answer
      agrees with the load of the kept intervals exactly when every slot has room. */
  lemma FullTurnAnswer(trace: Trace, n: nat, cap: nat, t: nat)
    requires 0 < n && t < |trace| && WellTimed(trace, n)
    requires trace[t].Some? && trace[t].value + n == t
    ensures var s := Run(trace[..t], n, cap);
      && AfterQuery(s, cap, t % n, trace[t].value % n) == s.(cached := s.cached + 1)
      && ((forall tau: nat :: Covers(trace, t, tau) ==>
            Load(Short(trace, n), Greedy(Short(trace, n), cap, t), tau) < cap)
          <==> forall i :: 0 <= i < n ==> s.live[i] < cap)
  {
    var s := Run(trace[..t], n, cap);
    RunTracks(trace, n, cap, t);
    FullTurn(t, n);
    EmptyWalk(s, cap, t % n);
    forall i | 0 <= i < n && forall tau: nat :: Covers(trace, t, tau) ==> s.live[tau % n] < cap
      ensures s.live[i] < cap
    {
      if i == t % n {
        assert Covers(trace, t, t - n);
      } else {
        var tau := t - t % n + if i < t % n then i else i - n;
        ModWindow(tau, t, n);
        assert Covers(trace, t, tau);
      }
    }
  }

  /** Two accesses to each of two lines, interleaved, through a two-slot vector: the counter reports
      two hits for a one-line cache that can keep only one of the intervals. */
  lemma OvercountsAtFullTurn()
    ensures var trace: Trace := [None, None, Some(0), Some(1)];
      WellTimed(trace, 2) && Run(trace, 2, 1).cached == 2 && !IsOptimum(trace, 1, 2)
  {
    var trace: Trace := [None, None, Some(0), Some(1)];
    FullTurnAnswer(trace, 2, 1, 2);
    FullTurnAnswer(trace, 2, 1, 3);
    assert trace[..4] == trace && trace[..4][..3] == trace[..3] && trace[..3][..2] == trace[..2];
    assert trace[..2][..1] == trace[..1] && trace[..1][..0] == [];
    assert Run(trace[..0], 2, 1).cached == 0;
    assert Run(trace[..1], 2, 1).cached == 0;
    assert Run(trace[..2], 2, 1).cached == 0;
    assert Run(trace[..3], 2, 1).cached == 1;
    forall chosen | Feasible(trace, 1, chosen) ensures |chosen| <= 1 {
      AtMostOne(trace, chosen);
    }
  }

  lemma AtMostOne(trace: Trace, chosen: set<nat>)
    requires trace == [None, None, Some(0), Some(1)] && Feasible(trace, 1, chosen)
    ensures |chosen| <= 1
  {
    assert chosen == set t | t in chosen && Covers(trace, t, 1);
    assert |chosen| == Load(trace, chosen, 1);
  }
}
