/** What several modules share: optional values, small counts, sizes of finite sets. */
module Common {

  datatype Option<+T> = None | Some(value: T)

  function One(b: bool): nat {
    if b then 1 else 0
  }

  lemma {:induction false} SubsetSize(a: set<nat>, b: set<nat>)
    requires a <= b
    ensures |a| <= |b|
  {
    if a != {} {
      var x :| x in a;
      SubsetSize(a - {x}, b - {x});
    }
  }

  /** The smallest member of a set; 0 for an empty one. */
  function Least(s: set<nat>): (x: nat)
    ensures s != {} ==> x in s && forall y :: y in s ==> x <= y
  {
    if s == {} then 0 else
    LeastExists(s);
    var x :| x in s && forall y :: y in s ==> x <= y;
    x
  }

  lemma LeastExists(s: set<nat>)
    requires s != {}
    ensures exists x :: x in s && forall y :: y in s ==> x <= y
  {
    var x :| x in s;
    LeastBelow(s, x);
  }

  lemma {:induction false} LeastBelow(s: set<nat>, x: nat)
    requires x in s
    ensures exists least :: least in s && forall y :: y in s ==> least <= y
    decreases x
  {
    if y :| y in s && y < x {
      LeastBelow(s, y);
    }
  }

  /** The place k after `head` on a ring of n places. */
  function Around(head: nat, k: nat, n: nat): (at: nat)
    requires head < n && k <= n
    ensures at < n
  {
    if head + k >= n then head + k - n else head + k
  }
}
