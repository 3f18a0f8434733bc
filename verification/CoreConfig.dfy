/** Sizes that the parts of the out-of-order core share, and where its circular buffer keeps instructions. */
module CoreConfig {
  /** Slots of the reorder buffer. */
  const ROB_SIZE: nat := 352

  /** How many entries a cycle of scheduling looks at. */
  const SCHEDULER_SIZE: nat := 128

  /** The slot of an instruction. */
  function Slot(i: nat): (k: nat)
    ensures k < ROB_SIZE
  {
    i % ROB_SIZE
  }

  lemma SlotNext(i: nat)
    requires i > 0
    ensures Slot(i - 1) == if Slot(i) == 0 then ROB_SIZE - 1 else Slot(i) - 1
  {}

  lemma SlotApart(i: nat, k: nat)
    requires i != k && i < k + ROB_SIZE && k < i + ROB_SIZE
    ensures Slot(i) != Slot(k)
  {}

  /** The instruction of slot k when the oldest one is `head`. */
  function InstrAt(head: nat, k: nat): (i: nat)
    requires k < ROB_SIZE
    ensures head <= i < head + ROB_SIZE && Slot(i) == k
  {
    head + if k >= Slot(head) then k - Slot(head) else k + ROB_SIZE - Slot(head)
  }

  lemma AtSlot(head: nat, i: nat)
    requires head <= i < head + ROB_SIZE
    ensures InstrAt(head, Slot(i)) == i
  {}

  /** The slot after k. */
  function Next(k: nat): nat {
    if k + 1 >= ROB_SIZE then 0 else k + 1
  }

  lemma SlotUp(i: nat)
    ensures Slot(i + 1) == Next(Slot(i))
  {}

  lemma SameSlot(first: nat, i: nat)
    requires first <= i < first + ROB_SIZE && Slot(i) == Slot(first)
    ensures i == first
  {}

  /** Where the older instructions of the window lie: in one stretch below the current slot, or in one
      below it and one at the top of the ring. */
  lemma Stretch(first: nat, i: nat)
    requires first <= i < first + ROB_SIZE && Slot(i) != Slot(first)
    ensures var prior := if Slot(i) == 0 then ROB_SIZE - 1 else Slot(i) - 1;
      && i > first && prior == Slot(i - 1)
      && (Slot(first) <= prior ==> first + (prior - Slot(first) + 1) == i)
      && (Slot(first) > prior ==>
            first + (ROB_SIZE - Slot(first)) == i - (prior + 1) && Slot(i - (prior + 1) - 1) == ROB_SIZE - 1)
  {
    SlotNext(i);
  }
}
