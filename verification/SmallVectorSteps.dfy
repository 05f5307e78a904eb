/**
 What the operations of the vector decide and do on values: which buffer they choose, what
 repeated insertion costs, and the loops that move elements, slot by slot, with the result
 "nothing" as soon as one of them would construct over an element, or move or destroy one
 that is not there.
 */
module SmallVectorSteps {
  import opened Basics

  /** A slot is raw memory, a live element, or an element that has been moved from. */
  datatype Slot<T> = Raw | Live(value: T) | MovedFrom

  // ---- choice of the buffer ----

  /** What a change of size does with the storage. */
  datatype Choice = Keep | Revert | Allocate(cap: nat)

  /** Growth by roughly one half, repeated until the capacity is enough. */
  function Grown(cap: nat, desired: nat): (r: nat)
    requires 1 <= cap
    ensures cap <= r
    decreases desired - cap
  {
    if cap < desired then Grown((cap * 3 + 1) / 2, desired) else cap
  }

  function Choose(onHeap: bool, capacity: nat, staticCap: nat, revertBelow: nat, desired: nat): (r: Choice)
    requires 1 <= capacity
    ensures r.Allocate? ==> 1 <= r.cap
  {
    if onHeap && capacity < desired then Allocate(Grown(capacity, desired))
    else if onHeap && desired < revertBelow then Revert
    else if !onHeap && staticCap < desired then Allocate(desired)
    else Keep
  }

  lemma {:induction false} GrownBounds(cap: nat, desired: nat)
    requires 1 <= cap < desired
    ensures desired <= Grown(cap, desired)
    ensures 3 * cap <= 2 * Grown(cap, desired) < 3 * desired
    decreases desired - cap
  {
    var next := (cap * 3 + 1) / 2;
    if next < desired {
      GrownBounds(next, desired);
    }
  }

  /** The chosen buffer always has room, the static buffer is only chosen when it has, and a
      reallocation on the heap wastes less than half of what was asked for. */
  lemma ChoiceFits(onHeap: bool, capacity: nat, staticCap: nat, revertBelow: nat, desired: nat)
    requires 1 <= capacity && revertBelow <= staticCap + 1
    requires !onHeap ==> capacity == staticCap
    ensures match Choose(onHeap, capacity, staticCap, revertBelow, desired)
            case Keep => desired <= capacity && (onHeap ==> revertBelow <= desired)
            case Revert => onHeap && desired < revertBelow && desired <= staticCap && desired <= capacity
            case Allocate(cap) =>
              && capacity < desired <= cap
              && (onHeap ==> 3 * capacity <= 2 * cap < 3 * desired)
              && (!onHeap ==> cap == desired)
  {
    if onHeap && capacity < desired {
      GrownBounds(capacity, desired);
    }
  }

  /** When an opening or closing of `num` slots may go ahead with that choice: in place an
      empty gap is harmless at the end only, and moving everything is always fine. */
  predicate Legal(choice: Choice, num: nat, atEnd: bool) {
    1 <= num || atEnd || !choice.Keep?
  }

  // ---- cost of repeated insertion at the end ----

  datatype Cost = Cost(onHeap: bool, capacity: nat, moves: nat)

  /** Storage and total number of moved elements after `n` insertions at the end of an empty
      static vector. */
  function Pushed(staticCap: nat, revertBelow: nat, n: nat): (c: Cost)
    requires 1 <= staticCap
    ensures 1 <= c.capacity
  {
    if n == 0 then Cost(false, staticCap, 0)
    else
      var c := Pushed(staticCap, revertBelow, n - 1);
      match Choose(c.onHeap, c.capacity, staticCap, revertBelow, n)
      case Keep => c
      case Revert => Cost(false, staticCap, c.moves + n - 1)
      case Allocate(cap) => Cost(true, cap, c.moves + n - 1)
  }

  lemma {:induction false} PushedState(staticCap: nat, revertBelow: nat, n: nat)
    requires 1 <= staticCap && revertBelow <= staticCap + 1
    ensures var c := Pushed(staticCap, revertBelow, n);
            && n <= c.capacity
            && c.onHeap == (staticCap < n)
            && (!c.onHeap ==> c.capacity == staticCap && c.moves == 0)
            && (c.onHeap ==> c.moves <= 2 * c.capacity + staticCap && 2 * c.capacity <= 3 * n)
  {
    if n > 0 {
      PushedState(staticCap, revertBelow, n - 1);
      var c := Pushed(staticCap, revertBelow, n - 1);
      ChoiceFits(c.onHeap, c.capacity, staticCap, revertBelow, n);
    }
  }

  /** However small the static buffer is, `n` insertions at the end move at most `4 n` elements. */
  lemma PushesAreCheap(staticCap: nat, revertBelow: nat, n: nat)
    requires 1 <= staticCap && revertBelow <= staticCap + 1
    ensures Pushed(staticCap, revertBelow, n).moves <= 4 * n
  {
    PushedState(staticCap, revertBelow, n);
  }

  // ---- the loops ----

  function RawSlots<T>(n: nat): (r: seq<Slot<T>>)
    ensures |r| == n && forall i :: 0 <= i < n ==> r[i].Raw?
  {
    seq(n, _ => Raw)
  }

  /** The loop that opens a gap in place, from the last element down. */
  function Opened<T>(slots: seq<Slot<T>>, p: nat, pos: nat, num: nat): Option<seq<Slot<T>>>
    requires pos <= p && p + num <= |slots|
    decreases p
  {
    if p == pos then Some(slots)
    else if !slots[p - 1 + num].Raw? || !slots[p - 1].Live? then None
    else Opened(slots[p - 1 + num := slots[p - 1]][p - 1 := Raw], p - 1, pos, num)
  }

  /** The loop that closes a gap in place: it destroys a slot and then fills it from further
      up. */
  function Closed<T>(slots: seq<Slot<T>>, p: nat, num: nat): (r: Option<seq<Slot<T>>>)
    requires p + num <= |slots|
    ensures r.Some? ==> |r.value| == |slots|
    decreases |slots| - p
  {
    if p + num == |slots| then Some(slots)
    else if slots[p].Raw? then None
    else
      var destroyed := slots[p := Raw];
      if !destroyed[p + num].Live? then None
      else Closed(destroyed[p := destroyed[p + num]][p + num := MovedFrom], p + 1, num)
  }

  /** The loops that move the elements from `i` on to another buffer, around a gap. */
  function Relocated<T>(src: seq<Slot<T>>, dst: seq<Slot<T>>, i: nat, pos: nat, num: nat, size: nat)
    : Option<seq<Slot<T>>>
    requires pos <= size <= |src| && i <= size && size + num <= |dst|
    decreases size - i
  {
    if i == size then Some(dst)
    else
      var j := if i < pos then i else i + num;
      if !src[i].Live? || !dst[j].Raw? then None
      else Relocated(src[i := MovedFrom], dst[j := src[i]], i + 1, pos, num, size)
  }

  /** The loops that move the elements from `i` on to another buffer, without a range. */
  function Contracted<T>(src: seq<Slot<T>>, dst: seq<Slot<T>>, i: nat, pos: nat, num: nat, size: nat)
    : Option<seq<Slot<T>>>
    requires pos + num <= size <= |src| && i <= size && size - num <= |dst|
    decreases size - i
  {
    if i == size then Some(dst)
    else if pos <= i < pos + num then
      if src[i].Raw? then None else Contracted(src[i := Raw], dst, i + 1, pos, num, size)
    else
      var j := if i < pos then i else i - num;
      if !src[i].Live? || !dst[j].Raw? then None
      else Contracted(src[i := Raw], dst[j := src[i]], i + 1, pos, num, size)
  }

  // ---- what they compute, and when they are legal ----

  function OpenedSlot<T>(slots: seq<Slot<T>>, p: nat, pos: nat, num: nat, i: nat): Slot<T>
    requires p + num <= |slots| && i < |slots|
  {
    if pos + num <= i < p + num then slots[i - num] else if pos <= i < pos + num && pos < p then Raw else slots[i]
  }

  function ClosedSlot<T>(slots: seq<Slot<T>>, p: nat, num: nat, i: nat): Slot<T>
    requires i + num < |slots|
  {
    if i < p then slots[i] else slots[i + num]
  }

  /** Opening a gap between elements in place is legal exactly if the gap is not empty; an
      empty one is harmless at the end only. */
  lemma {:induction false} OpeningIsLegalIff<T>(slots: seq<Slot<T>>, p: nat, pos: nat, num: nat)
    requires pos <= p && p + num <= |slots|
    requires forall i :: 0 <= i < p ==> slots[i].Live?
    requires forall i :: p <= i < p + num ==> slots[i].Raw?
    ensures Opened(slots, p, pos, num).Some? <==> 1 <= num || pos == p
    ensures Opened(slots, p, pos, num).Some? ==>
      var r := Opened(slots, p, pos, num).value;
      |r| == |slots| && forall i :: 0 <= i < |r| ==> r[i] == OpenedSlot(slots, p, pos, num, i)
    decreases p
  {
    if pos < p && 1 <= num {
      var next := slots[p - 1 + num := slots[p - 1]][p - 1 := Raw];
      OpeningIsLegalIff(next, p - 1, pos, num);
      var r := Opened(next, p - 1, pos, num).value;
      forall i | 0 <= i < |r| ensures r[i] == OpenedSlot(slots, p, pos, num, i) {
        assert r[i] == OpenedSlot(next, p - 1, pos, num, i);
      }
    }
  }

  lemma {:induction false} ClosingIsLegalIff<T>(slots: seq<Slot<T>>, p: nat, num: nat)
    requires p + num <= |slots|
    requires forall i :: p <= i < p + num ==> !slots[i].Raw?
    requires forall i :: p + num <= i < |slots| ==> slots[i].Live?
    ensures Closed(slots, p, num).Some? <==> 1 <= num || p == |slots|
    ensures Closed(slots, p, num).Some? ==>
      var r := Closed(slots, p, num).value;
      && |r| == |slots|
      && (forall i :: 0 <= i < |r| - num ==> r[i] == ClosedSlot(slots, p, num, i))
      && (forall i :: |r| - num <= i < |r| ==> !r[i].Raw?)
    decreases |slots| - p
  {
    if p + num < |slots| && 1 <= num {
      var next := slots[p := Raw][p := slots[p + num]][p + num := MovedFrom];
      ClosingIsLegalIff(next, p + 1, num);
      var r := Closed(next, p + 1, num).value;
      forall i | 0 <= i < |r| - num ensures r[i] == ClosedSlot(slots, p, num, i) {
        assert r[i] == ClosedSlot(next, p + 1, num, i);
      }
    }
  }

  function RelocatedSlot<T>(src: seq<Slot<T>>, dst: seq<Slot<T>>, i: nat, pos: nat, num: nat, size: nat,
                            k: nat): Slot<T>
    requires pos <= size <= |src| && k < |dst|
  {
    if i <= k < pos then src[k]
    else if pos + num <= k && i + num <= k < size + num then src[k - num] else dst[k]
  }

  function ContractedSlot<T>(src: seq<Slot<T>>, dst: seq<Slot<T>>, i: nat, pos: nat, num: nat, size: nat,
                             k: nat): Slot<T>
    requires pos + num <= size <= |src| && k < |dst|
  {
    if i <= k < pos then src[k] else if pos <= k && i <= k + num < size then src[k + num] else dst[k]
  }

  lemma {:induction false} RelocationIsLegal<T>(src: seq<Slot<T>>, dst: seq<Slot<T>>, i: nat, pos: nat,
                                                num: nat, size: nat)
    requires pos <= size <= |src| && i <= size && size + num <= |dst|
    requires forall k :: i <= k < size ==> src[k].Live?
    requires forall k :: 0 <= k < |dst| && (i <= k < pos || (pos + num <= k && i + num <= k < size + num)) ==>
      dst[k].Raw?
    ensures Relocated(src, dst, i, pos, num, size).Some?
    ensures var r := Relocated(src, dst, i, pos, num, size).value;
      && |r| == |dst|
      && forall k :: 0 <= k < |r| ==> r[k] == RelocatedSlot(src, dst, i, pos, num, size, k)
    decreases size - i
  {
    if i < size {
      var j := if i < pos then i else i + num;
      var src', dst' := src[i := MovedFrom], dst[j := src[i]];
      RelocationIsLegal(src', dst', i + 1, pos, num, size);
      var r := Relocated(src', dst', i + 1, pos, num, size).value;
      forall k | 0 <= k < |r| ensures r[k] == RelocatedSlot(src, dst, i, pos, num, size, k) {
        assert r[k] == RelocatedSlot(src', dst', i + 1, pos, num, size, k);
      }
    }
  }

  lemma {:induction false} ContractionIsLegal<T>(src: seq<Slot<T>>, dst: seq<Slot<T>>, i: nat, pos: nat,
                                                 num: nat, size: nat)
    requires pos + num <= size <= |src| && i <= size && size - num <= |dst|
    requires forall k :: i <= k < size ==> src[k].Live?
    requires forall k :: 0 <= k < size - num && (i <= k < pos || (pos <= k && i <= k + num)) ==> dst[k].Raw?
    ensures Contracted(src, dst, i, pos, num, size).Some?
    ensures var r := Contracted(src, dst, i, pos, num, size).value;
      && |r| == |dst|
      && forall k :: 0 <= k < |r| ==> r[k] == ContractedSlot(src, dst, i, pos, num, size, k)
    decreases size - i
  {
    if i < size {
      var src' := src[i := Raw];
      var dst' := if pos <= i < pos + num then dst else dst[if i < pos then i else i - num := src[i]];
      ContractionIsLegal(src', dst', i + 1, pos, num, size);
      var r := Contracted(src', dst', i + 1, pos, num, size).value;
      forall k | 0 <= k < |r| ensures r[k] == ContractedSlot(src, dst, i, pos, num, size, k) {
        assert r[k] == ContractedSlot(src', dst', i + 1, pos, num, size, k);
      }
    }
  }

  // ---- the whole operations ----

  /** The first `size` slots are elements and the others are raw. */
  ghost predicate Layout<T>(slots: seq<Slot<T>>, size: nat) {
    && size <= |slots|
    && (forall i :: 0 <= i < size ==> slots[i].Live?)
    && (forall i :: size <= i < |slots| ==> slots[i].Raw?)
  }

  /** The slots with a raw gap in front of the elements from `pos` on. */
  ghost predicate Gapped<T>(slots: seq<Slot<T>>, size: nat, pos: nat, num: nat, r: seq<Slot<T>>)
    requires pos <= size <= |slots|
  {
    && size + num <= |r|
    && forall i :: 0 <= i < |r| ==> r[i] == GappedSlot(slots, size, pos, num, i)
  }

  function GappedSlot<T>(slots: seq<Slot<T>>, size: nat, pos: nat, num: nat, i: nat): Slot<T>
    requires pos <= size <= |slots|
  {
    if i < pos then slots[i] else if pos + num <= i < size + num then slots[i - num] else Raw
  }

  /** The slots without the elements from `pos` up to `pos + num`. */
  ghost predicate Cut<T>(slots: seq<Slot<T>>, size: nat, pos: nat, num: nat, r: seq<Slot<T>>)
    requires pos + num <= size <= |slots|
  {
    && size - num <= |r|
    && forall i :: 0 <= i < |r| ==> r[i] == CutSlot(slots, size, pos, num, i)
  }

  function CutSlot<T>(slots: seq<Slot<T>>, size: nat, pos: nat, num: nat, i: nat): Slot<T>
    requires pos + num <= size <= |slots|
  {
    if i < pos then slots[i] else if i < size - num then slots[i + num] else Raw
  }

  function CapacityOf(choice: Choice, capacity: nat, staticCap: nat): nat {
    match choice
    case Keep => capacity
    case Revert => staticCap
    case Allocate(cap) => cap
  }

  /** The buffer after `grow_at`. */
  function Grew<T>(buf: seq<Slot<T>>, onHeap: bool, staticCap: nat, revertBelow: nat, size: nat, pos: nat, num: nat)
    : Option<seq<Slot<T>>>
    requires 1 <= |buf| && pos <= size <= |buf| && revertBelow <= staticCap + 1
    requires !onHeap ==> |buf| == staticCap
  {
    ChoiceFits(onHeap, |buf|, staticCap, revertBelow, size + num);
    var choice := Choose(onHeap, |buf|, staticCap, revertBelow, size + num);
    if choice.Keep? then Opened(buf, size, pos, num)
    else Relocated(buf, RawSlots(CapacityOf(choice, |buf|, staticCap)), 0, pos, num, size)
  }

  /** The buffer after `shrink_at`. */
  function Shrank<T>(buf: seq<Slot<T>>, onHeap: bool, staticCap: nat, revertBelow: nat, size: nat, pos: nat, num: nat)
    : Option<seq<Slot<T>>>
    requires 1 <= |buf| && pos + num <= size <= |buf| && revertBelow <= staticCap + 1
    requires !onHeap ==> |buf| == staticCap
  {
    if size == num then Some(RawSlots(if onHeap && 0 < revertBelow then staticCap else |buf|))
    else
      ChoiceFits(onHeap, |buf|, staticCap, revertBelow, size - num);
      var choice := Choose(onHeap, |buf|, staticCap, revertBelow, size - num);
      if choice.Keep? then
        var closed := Closed(buf[..size], pos, num);
        if closed.None? || exists i :: size - num <= i < |closed.value| && closed.value[i].Raw? then None
        else Some(closed.value[..size - num] + RawSlots(num) + buf[size..])
      else if choice.Revert? then Contracted(buf, RawSlots(staticCap), 0, pos, num, size)
      else None
  }

  /** Growing at a position is legal if and only if the gap is not empty, or at the end, or
      everything moves to another buffer; then it leaves the gap and nothing else changes. */
  lemma GrowIsLegalIff<T>(buf: seq<Slot<T>>, onHeap: bool, staticCap: nat, revertBelow: nat, size: nat,
                          pos: nat, num: nat)
    requires 1 <= |buf| && pos <= size && Layout(buf, size) && revertBelow <= staticCap + 1
    requires !onHeap ==> |buf| == staticCap
    ensures var r := Grew(buf, onHeap, staticCap, revertBelow, size, pos, num);
      var choice := Choose(onHeap, |buf|, staticCap, revertBelow, size + num);
      && (r.Some? <==> Legal(choice, num, pos == size))
      && (r.Some? ==> |r.value| == CapacityOf(choice, |buf|, staticCap) && Gapped(buf, size, pos, num, r.value))
  {
    ChoiceFits(onHeap, |buf|, staticCap, revertBelow, size + num);
    var choice := Choose(onHeap, |buf|, staticCap, revertBelow, size + num);
    if choice.Keep? {
      OpeningIsLegalIff(buf, size, pos, num);
    } else {
      RelocationIsLegal(buf, RawSlots(CapacityOf(choice, |buf|, staticCap)), 0, pos, num, size);
    }
  }

  lemma CutInPlace<T>(buf: seq<Slot<T>>, size: nat, pos: nat, num: nat)
    requires pos + num <= size && Layout(buf, size)
    ensures var c := Closed(buf[..size], pos, num);
      && (c.Some? <==> 1 <= num || pos == size)
      && (c.Some? ==>
            && (forall i :: size - num <= i < size ==> !c.value[i].Raw?)
            && Cut(buf, size, pos, num, c.value[..size - num] + RawSlots(num) + buf[size..]))
  {
    ClosingIsLegalIff(buf[..size], pos, num);
    var c := Closed(buf[..size], pos, num);
    if c.Some? {
      var r := c.value[..size - num] + RawSlots(num) + buf[size..];
      forall i | 0 <= i < |r| ensures r[i] == CutSlot(buf, size, pos, num, i) {
        if i < size - num {
          assert c.value[i] == ClosedSlot(buf[..size], pos, num, i);
        }
      }
    }
  }

  /** The capacity after shrinking; an emptied vector is cleared. */
  function ShrunkCapacity(onHeap: bool, capacity: nat, staticCap: nat, revertBelow: nat, newSize: nat): nat {
    if onHeap && newSize < revertBelow then staticCap else capacity
  }

  /** The same for shrinking. */
  lemma ShrinkIsLegalIff<T>(buf: seq<Slot<T>>, onHeap: bool, staticCap: nat, revertBelow: nat, size: nat,
                            pos: nat, num: nat)
    requires 1 <= |buf| && pos + num <= size && Layout(buf, size) && revertBelow <= staticCap + 1
    requires !onHeap ==> |buf| == staticCap
    ensures var r := Shrank(buf, onHeap, staticCap, revertBelow, size, pos, num);
      && (r.Some? <==> Legal(Choose(onHeap, |buf|, staticCap, revertBelow, size - num), num, pos == size))
      && (r.Some? ==>
            && |r.value| == ShrunkCapacity(onHeap, |buf|, staticCap, revertBelow, size - num)
            && Cut(buf, size, pos, num, r.value))
  {
    ChoiceFits(onHeap, |buf|, staticCap, revertBelow, size - num);
    if size != num {
      if Choose(onHeap, |buf|, staticCap, revertBelow, size - num).Keep? {
        CutInPlace(buf, size, pos, num);
      } else {
        ContractionIsLegal(buf, RawSlots(staticCap), 0, pos, num, size);
      }
    }
  }
}
