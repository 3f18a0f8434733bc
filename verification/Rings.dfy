/** Circular arrays of numbers with a marker for free places, as the program uses them for its queues. */
module Rings {
  import opened Common

  /** The circular array holds these numbers, oldest first; all other places are free. */
  ghost predicate Queued(place: seq<nat>, free: nat, head: nat, tail: nat, q: seq<nat>) {
    && head < |place| && |q| <= |place| && tail == Around(head, |q|, |place|)
    && (forall k :: 0 <= k < |q| ==> q[k] != free && place[Around(head, k, |place|)] == q[k])
    && (forall k :: |q| <= k < |place| ==> place[Around(head, k, |place|)] == free)
  }

  function NextPlace(k: nat, size: nat): nat {
    if k + 1 == size then 0 else k + 1
  }

  lemma QueuedPush(place: seq<nat>, free: nat, head: nat, tail: nat, q: seq<nat>, x: nat)
    requires Queued(place, free, head, tail, q) && x != free && |q| < |place|
    ensures place[tail] == free && Queued(place[tail := x], free, head, NextPlace(tail, |place|), q + [x])
  {
    assert place[Around(head, |q|, |place|)] == free;
  }

  lemma QueuedHead(place: seq<nat>, free: nat, head: nat, tail: nat, q: seq<nat>)
    requires Queued(place, free, head, tail, q)
    ensures head < |place| && place[head] == if q == [] then free else q[0]
  {
    assert Around(head, 0, |place|) == head;
  }

  lemma QueuedPop(place: seq<nat>, free: nat, head: nat, tail: nat, q: seq<nat>)
    requires Queued(place, free, head, tail, q) && q != []
    ensures Queued(place[head := free], free, NextPlace(head, |place|), tail, q[1..])
  {
    var n, head' := |place|, NextPlace(head, |place|);
    assert Around(head, 0, n) == head;
    assert forall k :: 0 <= k < n - 1 ==> Around(head', k, n) == Around(head, k + 1, n) != head;
    assert Around(head', n - 1, n) == head;
  }

  /** The place at the tail is free exactly when the array is not full. */
  lemma QueuedRoom(place: seq<nat>, free: nat, head: nat, tail: nat, q: seq<nat>)
    requires Queued(place, free, head, tail, q)
    ensures tail < |place| && (place[tail] == free <==> |q| < |place|)
  {
    if |q| < |place| {
      assert place[Around(head, |q|, |place|)] == free;
    } else {
      assert place[Around(head, 0, |place|)] == q[0];
    }
  }

  /** An empty circular array has a free place everywhere. */
  lemma QueuedNothing(place: seq<nat>, free: nat, head: nat, tail: nat, k: nat)
    requires Queued(place, free, head, tail, []) && k < |place|
    ensures place[k] == free
  {
    assert Around(head, if k >= head then k - head else k + |place| - head, |place|) == k;
  }

  class Ring {
    const place: array<nat>
    const free: nat
    var head: nat
    var tail: nat
    /** What is in the ring, oldest first. */
    ghost var contents: seq<nat>

    constructor (size: nat, free: nat)
      requires size > 0
      ensures Valid() && contents == [] && fresh(place) && place.Length == size && this.free == free
    {
      place := new nat[size](_ => free);
      this.free := free;
      head, tail := 0, 0;
      contents := [];
    }

    ghost predicate Valid()
      reads this, place
    {
      Queued(place[..], free, head, tail, contents)
    }

    /** A push never overwrites a live place when there are fewer entries than places. */
    method Push(x: nat)
      requires Valid() && x != free && |contents| < place.Length
      modifies this`tail, this`contents, place
      ensures Valid() && contents == old(contents) + [x]
    {
      QueuedPush(place[..], free, head, tail, contents, x);
      assert place[..][tail] == place[tail] == free;
      place[tail] := x;
      tail := tail + 1;
      if tail == place.Length {
        tail := 0;
      }
      contents := contents + [x];
    }

    method HasRoom() returns (room: bool)
      requires Valid()
      ensures room == (|contents| < place.Length)
    {
      QueuedRoom(place[..], free, head, tail, contents);
      room := place[tail] == free;
    }

    method Peek() returns (x: nat)
      requires Valid()
      ensures x == free <==> contents == []
      ensures contents != [] ==> x == contents[0]
    {
      QueuedHead(place[..], free, head, tail, contents);
      x := place[head];
    }

    method Pop()
      requires Valid() && contents != []
      modifies this`head, this`contents, place
      ensures Valid() && contents == old(contents)[1..]
    {
      QueuedHead(place[..], free, head, tail, contents);
      QueuedPop(place[..], free, head, tail, contents);
      place[head] := free;
      head := head + 1;
      if head == place.Length {
        head := 0;
      }
      contents := contents[1..];
    }
  }
}
