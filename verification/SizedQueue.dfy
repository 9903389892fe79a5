/**
 The fixed-size queue over an array whose two counters only grow until the queue is found
 empty.  The counters are unsigned 32-bit integers.
 */
module SizedQueues {
  import opened Wrappers
  import opened MachineIntegers

  lemma NoMultipleBetween(d: int, n: int)
    requires 0 < n
    ensures !(0 < d * n < n)
  {
  }

  /** Positions less than a capacity apart never share a slot. */
  lemma LiveSlotsDistinct(x: int, y: int, n: int)
    requires 0 < n && x < y < x + n
    ensures x % n != y % n
  {
    var d := y / n - x / n;
    NoMultipleBetween(d, n);
    assert x == x / n * n + x % n && y == y / n * n + y % n;
    assert y - x == d * n + (y % n - x % n);
  }

  /** Counters are mapped to slots modulo the capacity. */
  function SlotAt<T>(slots: seq<T>, position: nat): T
    requires slots != []
  {
    slots[position % |slots|]
  }

  function WithSlot<T>(slots: seq<T>, position: nat, elem: T): (t: seq<T>)
    requires slots != []
    ensures |t| == |slots| && SlotAt(t, position) == elem
  {
    slots[position % |slots| := elem]
  }

  /** What lies between the two counters. */
  function Window<T>(slots: seq<T>, head: nat, tail: nat): (w: seq<T>)
    requires head < tail ==> slots != []
    ensures |w| == if head < tail then tail - head else 0
    ensures forall i :: 0 <= i < |w| ==> w[i] == SlotAt(slots, head + i)
  {
    if head < tail then seq(tail - head, i requires 0 <= i < tail - head => SlotAt(slots, head + i)) else []
  }

  lemma OtherSlotKept<T>(slots: seq<T>, position: nat, other: nat, elem: T)
    requires slots != [] && other < position < other + |slots|
    ensures SlotAt(WithSlot(slots, position, elem), other) == SlotAt(slots, other)
  {
    LiveSlotsDistinct(other, position, |slots|);
  }

  /** Writing behind the last live slot never overwrites a live one. */
  lemma WindowPush<T>(slots: seq<T>, head: nat, tail: nat, elem: T)
    requires head <= tail && tail - head < |slots|
    ensures Window(WithSlot(slots, tail, elem), head, tail + 1) == Window(slots, head, tail) + [elem]
  {
    hide SlotAt, WithSlot;
    var slots' := WithSlot(slots, tail, elem);
    var w, w' := Window(slots, head, tail), Window(slots', head, tail + 1);
    forall i | 0 <= i < tail - head
      ensures w'[i] == w[i]
    {
      OtherSlotKept(slots, tail, head + i, elem);
    }
    assert w'[tail - head] == elem;
  }

  lemma WindowPop<T>(slots: seq<T>, head: nat, tail: nat)
    requires head < tail && slots != []
    ensures Window(slots, head, tail)[0] == SlotAt(slots, head)
    ensures Window(slots, head + 1, tail) == Window(slots, head, tail)[1..]
  {
  }

  /** The difference of the counters and the successor of one, as unsigned integers. */
  lemma UnsignedCounters(head: nat, tail: nat)
    requires head < UINT_SIZE && tail < UINT_SIZE
    ensures (tail + UINT_SIZE - head) % UINT_SIZE == if head <= tail then tail - head else tail + UINT_SIZE - head
    ensures (tail + 1) % UINT_SIZE == if tail == UINT_SIZE - 1 then 0 else tail + 1
  {
  }

  /** What a push leaves between the counters, the counter of the next push having wrapped or
      not. */
  lemma WindowAfterPush<T>(slots: seq<T>, head: nat, tail: nat, elem: T)
    requires head < UINT_SIZE && tail < UINT_SIZE && |slots| < UINT_SIZE - 1
    requires (tail + UINT_SIZE - head) % UINT_SIZE < |slots|
    ensures Window(WithSlot(slots, tail, elem), head, (tail + 1) % UINT_SIZE)
         == if tail == UINT_SIZE - 1 || tail < head then [] else Window(slots, head, tail) + [elem]
  {
    hide SlotAt, WithSlot;
    UnsignedCounters(head, tail);
    if head <= tail {
      WindowPush(slots, head, tail, elem);
    }
  }

  class SizedQueue<T(0)> {
    const capacity: nat
    const slots: array<T>
    var tail: nat
    var head: nat

    ghost predicate Valid()
      reads this
    {
      && slots.Length == capacity < UINT_SIZE - 1
      && tail < UINT_SIZE && head < UINT_SIZE
      && (head <= tail ==> tail - head <= capacity)
    }

    /** The elements further calls of Pop would return, oldest first. */
    ghost function Contents(): seq<T>
      requires Valid()
      reads this, slots
    {
      Window(slots[..], head, tail)
    }

    /** The counter of the next push is about to wrap, or already has. */
    predicate Exhausted()
      reads this
    {
      tail == UINT_SIZE - 1 || tail < head
    }

    constructor (capacity: nat)
      requires capacity < UINT_SIZE - 1
      ensures Valid() && this.capacity == capacity && Contents() == [] && !Exhausted()
    {
      this.capacity := capacity;
      slots := new T[capacity];
      tail, head := 0, 0;
    }

    function Size(): nat
      requires Valid()
      reads this, slots
      ensures tail >= head ==> Size() == |Contents()| <= capacity
    {
      (tail + UINT_SIZE - head) % UINT_SIZE
    }

    function GetIndex(index: nat): nat
      requires capacity > 0
    {
      index % capacity
    }

    /** A push is refused when the queue is full and otherwise appends; only when the counter
        has run out does an accepted push lose everything stored. */
    method Push(elem: T) returns (ok: bool)
      requires Valid()
      modifies this`tail, slots
      ensures Valid()
      ensures ok <==> old(Size()) < capacity
      ensures !ok ==> tail == old(tail) && Contents() == old(Contents())
      ensures ok ==> Contents() == if old(Exhausted()) then [] else old(Contents()) + [elem]
    {
      if Size() >= capacity {
        return false;
      }
      hide Window, SlotAt;
      ghost var before := slots[..];
      WindowAfterPush(before, head, tail, elem);
      slots[GetIndex(tail)] := elem;
      assert slots[..] == WithSlot(before, tail, elem);
      tail := (tail + 1) % UINT_SIZE;
      return true;
    }

    /** A pop returns the oldest element; finding nothing restarts the counters. */
    method Pop() returns (r: Option<T>)
      requires Valid()
      modifies this`tail, this`head
      ensures Valid()
      ensures old(Contents()) != [] ==>
                r == Some(old(Contents())[0]) && Contents() == old(Contents())[1..] && tail == old(tail)
      ensures old(Contents()) == [] ==> r == None && Contents() == [] && !Exhausted() && Size() == 0
    {
      if head < tail {
        WindowPop(slots[..], head, tail);
        r := Some(slots[GetIndex(head)]);
        head := head + 1;
        return;
      }
      head := 0;
      tail := 0;
      return None;
    }
  }
}
