/**
 A vector with a static buffer. Elements are constructed, moved from and destroyed one slot
 at a time, either in the static buffer or in one heap block.

 A slot is raw memory, a live element, or an element that has been moved from and still has
 to be destroyed. The methods refine the operations of a sequence; `owned` are the heap
 blocks that have been allocated and not been given back.
 */
module SmallVector {
  import opened Basics
  import opened SmallVectorSteps

  type Buffer<T> = array<Slot<T>>

  ghost predicate AllRaw<T>(a: Buffer<T>, lo: int, hi: int)
    reads a
  {
    0 <= lo && hi <= a.Length && forall i :: lo <= i < hi ==> a[i].Raw?
  }

  ghost predicate AllMoved<T>(a: Buffer<T>, lo: int, hi: int)
    reads a
  {
    0 <= lo && hi <= a.Length && forall i :: lo <= i < hi ==> a[i].MovedFrom?
  }

  ghost predicate Holds<T>(a: Buffer<T>, at: int, xs: seq<T>)
    reads a
  {
    0 <= at && at + |xs| <= a.Length && forall i :: 0 <= i < |xs| ==> a[at + i] == Live(xs[i])
  }

  lemma HoldsLive<T>(a: Buffer<T>, at: int, xs: seq<T>)
    requires Holds(a, at, xs)
    ensures forall k :: at <= k < at + |xs| ==> a[k].Live?
  {
    forall k | at <= k < at + |xs| ensures a[k].Live? {
      assert a[at + (k - at)] == Live(xs[k - at]);
    }
  }

  /** The elements at the start of a buffer, and nothing after them. */
  ghost predicate Elements<T>(slots: seq<Slot<T>>, xs: seq<T>) {
    Layout(slots, |xs|) && forall i :: 0 <= i < |xs| ==> slots[i] == Live(xs[i])
  }

  lemma ElementsOf<T>(a: Buffer<T>, xs: seq<T>)
    requires Holds(a, 0, xs) && AllRaw(a, |xs|, a.Length)
    ensures Elements(a[..], xs)
  {
    forall i | 0 <= i < |xs| ensures a[..][i] == Live(xs[i]) {
      assert a[0 + i] == Live(xs[i]);
    }
  }

  lemma HoldsParts<T>(a: Buffer<T>, xs: seq<T>, pos: nat)
    requires pos <= |xs| && Holds(a, 0, xs)
    ensures Holds(a, 0, xs[..pos]) && Holds(a, pos, xs[pos..])
  {
  }

  lemma HoldsJoin<T>(a: Buffer<T>, xs: seq<T>, ys: seq<T>)
    requires Holds(a, 0, xs) && Holds(a, |xs|, ys)
    ensures Holds(a, 0, xs + ys)
  {
    forall i | 0 <= i < |xs + ys| ensures a[0 + i] == Live((xs + ys)[i]) {
      if i < |xs| {
        assert a[0 + i] == Live(xs[i]);
      } else {
        assert a[|xs| + (i - |xs|)] == Live(ys[i - |xs|]);
      }
    }
  }

  /** Placement of a new element. */
  method Construct<T>(a: Buffer<T>, i: nat, x: T)
    requires i < a.Length && a[i].Raw?
    modifies a
    ensures a[i] == Live(x)
    ensures forall k :: 0 <= k < a.Length && k != i ==> a[k] == old(a[k])
  {
    a[i] := Live(x);
  }

  method Destroy<T>(a: Buffer<T>, i: nat)
    requires i < a.Length && !a[i].Raw?
    modifies a
    ensures a[i] == Raw
    ensures forall k :: 0 <= k < a.Length && k != i ==> a[k] == old(a[k])
  {
    a[i] := Raw;
  }

  method ConstructRange<T>(a: Buffer<T>, at: nat, xs: seq<T>)
    requires AllRaw(a, at, at + |xs|)
    modifies a
    ensures Holds(a, at, xs)
    ensures forall k :: 0 <= k < a.Length && !(at <= k < at + |xs|) ==> a[k] == old(a[k])
  {
    var i := 0;
    while i < |xs|
      invariant 0 <= i <= |xs|
      invariant forall q :: 0 <= q < i ==> a[at + q] == Live(xs[q])
      invariant forall q :: at + i <= q < at + |xs| ==> a[q].Raw?
      invariant forall q :: 0 <= q < a.Length && !(at <= q < at + |xs|) ==> a[q] == old(a[q])
    {
      Construct(a, at + i, xs[i]);
      i := i + 1;
    }
  }

  /** Copies of one element. */
  function Copies<T>(n: nat, x: T): (r: seq<T>)
    ensures |r| == n && forall i :: 0 <= i < n ==> r[i] == x
  {
    seq(n, _ => x)
  }

  method ConstructFill<T>(a: Buffer<T>, at: nat, n: nat, x: T)
    requires AllRaw(a, at, at + n)
    modifies a
    ensures Holds(a, at, Copies(n, x))
    ensures forall k :: 0 <= k < a.Length && !(at <= k < at + n) ==> a[k] == old(a[k])
  {
    var i := 0;
    while i < n
      invariant 0 <= i <= n
      invariant forall q :: at <= q < at + i ==> a[q] == Live(x)
      invariant forall q :: at + i <= q < at + n ==> a[q].Raw?
      invariant forall q :: 0 <= q < a.Length && !(at <= q < at + n) ==> a[q] == old(a[q])
    {
      Construct(a, at + i, x);
      i := i + 1;
    }
  }

  method DestroyRange<T>(a: Buffer<T>, i: nat, n: nat)
    requires i + n <= a.Length && forall k :: i <= k < i + n ==> !a[k].Raw?
    modifies a
    ensures AllRaw(a, i, i + n)
    ensures forall k :: 0 <= k < a.Length && !(i <= k < i + n) ==> a[k] == old(a[k])
  {
    var k := i;
    while k < i + n
      invariant i <= k <= i + n
      invariant forall q :: i <= q < k ==> a[q].Raw?
      invariant forall q :: k <= q < i + n ==> !a[q].Raw?
      invariant forall q :: 0 <= q < a.Length && !(i <= q < i + n) ==> a[q] == old(a[q])
    {
      Destroy(a, k);
      k := k + 1;
    }
  }

  // ---- the vector ----

  class SmallVec<T> {
    const staticCap: nat
    const revertBelow: nat
    const stat: Buffer<T>
    var buf: Buffer<T>
    var size: nat
    var capacity: nat
    /** The elements. */
    ghost var contents: seq<T>
    /** The heap blocks allocated and not freed. */
    ghost var owned: set<Buffer<T>>
    /** The number of elements moved so far, counted where one is moved. */
    ghost var moves: nat

    /** Static mode means the static capacity; otherwise one heap block is owned, of at least
        that capacity. `extra` are blocks just allocated. */
    ghost predicate Storage(extra: set<Buffer<T>> := {})
      reads this
    {
      && 1 <= staticCap == stat.Length && revertBelow <= staticCap + 1
      && staticCap <= capacity == buf.Length
      && owned == (if buf == stat then {} else {buf}) + extra
    }

    /** The constructed slots are exactly the first `size` ones of the current buffer. */
    ghost predicate Valid(extra: set<Buffer<T>> := {})
      reads this, buf, stat
    {
      && Storage(extra)
      && size == |contents| <= capacity
      && Holds(buf, 0, contents) && AllRaw(buf, size, buf.Length)
      && (buf != stat ==> AllRaw(stat, 0, stat.Length))
    }

    /** What is left after all elements have been destroyed: raw buffers. */
    ghost predicate Bare()
      reads this, buf, stat
    {
      Storage() && AllRaw(buf, 0, buf.Length) && AllRaw(stat, 0, stat.Length)
    }

    constructor (staticCap: nat, revertBelow: nat)
      requires 1 <= staticCap && revertBelow <= staticCap + 1
      ensures Valid() && fresh(stat) && buf == stat
      ensures this.staticCap == staticCap && this.revertBelow == revertBelow
      ensures contents == [] && moves == 0
    {
      var a := new Slot<T>[staticCap](_ => Raw);
      this.staticCap, this.revertBelow := staticCap, revertBelow;
      stat, buf, size, capacity := a, a, 0, staticCap;
      contents, owned, moves := [], {}, 0;
    }

    predicate IsStatic()
      reads this
    {
      buf == stat
    }

    // ---- moving elements: only here are moves counted ----

    /** Placement of an element moved out of another slot. */
    method MoveConstruct(dst: Buffer<T>, j: nat, src: Buffer<T>, i: nat)
      requires j < dst.Length && dst[j].Raw? && i < src.Length && src[i].Live?
      modifies dst, src, this`moves
      ensures dst[j] == old(src[i]) && src[i] == MovedFrom
      ensures forall k :: 0 <= k < dst.Length && k != j && (dst == src ==> k != i) ==> dst[k] == old(dst[k])
      ensures forall k :: 0 <= k < src.Length && k != i && (dst == src ==> k != j) ==> src[k] == old(src[k])
      ensures moves == old(moves) + 1
    {
      dst[j] := src[i];
      src[i] := MovedFrom;
      moves := moves + 1;
    }

    /** The elements of a range are moved to another buffer; what is left still has to be
        destroyed. */
    method MoveRange(src: Buffer<T>, i: nat, dst: Buffer<T>, j: nat, n: nat, ghost xs: seq<T>)
      requires src != dst && |xs| == n && Holds(src, i, xs) && AllRaw(dst, j, j + n)
      modifies src, dst, this`moves
      ensures Holds(dst, j, xs) && AllMoved(src, i, i + n)
      ensures forall k :: 0 <= k < src.Length && !(i <= k < i + n) ==> src[k] == old(src[k])
      ensures forall k :: 0 <= k < dst.Length && !(j <= k < j + n) ==> dst[k] == old(dst[k])
      ensures moves == old(moves) + n
    {
      var k := 0;
      while k < n
        invariant 0 <= k <= n && moves == old(moves) + k
        invariant forall q :: 0 <= q < k ==> dst[j + q] == Live(xs[q])
        invariant forall q :: i <= q < i + k ==> src[q].MovedFrom?
        invariant forall q :: k <= q < n ==> src[i + q] == Live(xs[q])
        invariant forall q :: j + k <= q < j + n ==> dst[q].Raw?
        invariant forall q :: 0 <= q < src.Length && !(i <= q < i + n) ==> src[q] == old(src[q])
        invariant forall q :: 0 <= q < dst.Length && !(j <= q < j + n) ==> dst[q] == old(dst[q])
      {
        assert src[i + k] == Live(xs[k]);
        MoveConstruct(dst, j + k, src, i + k);
        k := k + 1;
      }
    }

    /** As moving a range, but every element left behind is destroyed on the way. */
    method TransferRange(src: Buffer<T>, i: nat, dst: Buffer<T>, j: nat, n: nat, ghost xs: seq<T>)
      requires src != dst && |xs| == n && Holds(src, i, xs) && AllRaw(dst, j, j + n)
      modifies src, dst, this`moves
      ensures Holds(dst, j, xs) && AllRaw(src, i, i + n)
      ensures forall k :: 0 <= k < src.Length && !(i <= k < i + n) ==> src[k] == old(src[k])
      ensures forall k :: 0 <= k < dst.Length && !(j <= k < j + n) ==> dst[k] == old(dst[k])
      ensures moves == old(moves) + n
    {
      var k := 0;
      while k < n
        invariant 0 <= k <= n && moves == old(moves) + k
        invariant forall q :: 0 <= q < k ==> dst[j + q] == Live(xs[q])
        invariant forall q :: i <= q < i + k ==> src[q].Raw?
        invariant forall q :: k <= q < n ==> src[i + q] == Live(xs[q])
        invariant forall q :: j + k <= q < j + n ==> dst[q].Raw?
        invariant forall q :: 0 <= q < src.Length && !(i <= q < i + n) ==> src[q] == old(src[q])
        invariant forall q :: 0 <= q < dst.Length && !(j <= q < j + n) ==> dst[q] == old(dst[q])
      {
        assert src[i + k] == Live(xs[k]);
        MoveConstruct(dst, j + k, src, i + k);
        Destroy(src, i + k);
        k := k + 1;
      }
    }

    /** All elements but the `num` ones at `pos` move to the start of another buffer, and the
        old buffer is left raw. */
    method TransferAround(src: Buffer<T>, dst: Buffer<T>, pos: nat, num: nat, size: nat, ghost xs: seq<T>)
      requires src != dst && pos + num <= size == |xs| && size - num <= dst.Length
      requires Holds(src, 0, xs) && AllRaw(src, size, src.Length) && AllRaw(dst, 0, dst.Length)
      modifies src, dst, this`moves
      ensures Holds(dst, 0, xs[..pos] + xs[pos + num..]) && AllRaw(dst, size - num, dst.Length)
      ensures AllRaw(src, 0, src.Length)
      ensures moves == old(moves) + size - num
    {
      ghost var front, gap, back := xs[..pos], xs[pos..pos + num], xs[pos + num..];
      assert Holds(src, 0, front) && Holds(src, pos, gap) && Holds(src, pos + num, back);
      HoldsLive(src, pos, gap);
      TransferRange(src, 0, dst, 0, pos, front);
      DestroyRange(src, pos, num);
      TransferRange(src, pos + num, dst, pos, size - num - pos, back);
      HoldsJoin(dst, front, back);
    }

    /** All elements move to another buffer with a gap of `num` at `pos`, and the old buffer is
        left raw. */
    method MoveAround(src: Buffer<T>, dst: Buffer<T>, pos: nat, num: nat, size: nat, ghost xs: seq<T>)
      requires src != dst && pos <= size == |xs| && size + num <= dst.Length
      requires Holds(src, 0, xs) && AllRaw(src, size, src.Length) && AllRaw(dst, 0, dst.Length)
      modifies src, dst, this`moves
      ensures Holds(dst, 0, xs[..pos]) && AllRaw(dst, pos, pos + num)
      ensures Holds(dst, pos + num, xs[pos..]) && AllRaw(dst, size + num, dst.Length)
      ensures AllRaw(src, 0, src.Length)
      ensures moves == old(moves) + size
    {
      HoldsParts(src, xs, pos);
      MoveRange(src, 0, dst, 0, pos, xs[..pos]);
      MoveRange(src, pos, dst, pos + num, size - pos, xs[pos..]);
      DestroyRange(src, 0, size);
    }

    /** The elements from `pos` on move up by `num` in place, last one first. */
    method ShiftUp(a: Buffer<T>, pos: nat, s: nat, num: nat, ghost xs: seq<T>)
      requires 1 <= num || pos == s
      requires pos <= s && s + num <= a.Length && |xs| == s - pos
      requires Holds(a, pos, xs) && AllRaw(a, s, s + num)
      modifies a, this`moves
      ensures Holds(a, pos + num, xs) && AllRaw(a, pos, pos + num)
      ensures forall k :: 0 <= k < a.Length && !(pos <= k < s + num) ==> a[k] == old(a[k])
      ensures moves == old(moves) + s - pos
    {
      var p := s;
      while p > pos
        invariant pos <= p <= s && moves == old(moves) + s - p
        invariant forall q :: 0 <= q < p - pos ==> a[pos + q] == Live(xs[q])
        invariant forall q :: p <= q < p + num ==> a[q].Raw?
        invariant forall q :: p - pos <= q < |xs| ==> a[pos + num + q] == Live(xs[q])
        invariant forall q :: 0 <= q < a.Length && !(pos <= q < s + num) ==> a[q] == old(a[q])
      {
        p := p - 1;
        assert a[pos + (p - pos)] == Live(xs[p - pos]);
        MoveConstruct(a, p + num, a, p);
        Destroy(a, p);
      }
    }

    /** The elements after a gap of `num` move down over it in place, first one first. */
    method ShiftDown(a: Buffer<T>, pos: nat, s: nat, num: nat, ghost xs: seq<T>)
      requires 1 <= num && pos + num <= s <= a.Length && |xs| == s - pos - num
      requires Holds(a, pos + num, xs) && forall k :: pos <= k < pos + num ==> !a[k].Raw?
      modifies a, this`moves
      ensures Holds(a, pos, xs) && AllRaw(a, s - num, s)
      ensures forall k :: 0 <= k < a.Length && !(pos <= k < s) ==> a[k] == old(a[k])
      ensures moves == old(moves) + s - pos - num
    {
      var p := pos;
      while p + num < s
        invariant pos <= p <= s - num && moves == old(moves) + p - pos
        invariant forall q :: 0 <= q < p - pos ==> a[pos + q] == Live(xs[q])
        invariant forall q :: p <= q < p + num ==> !a[q].Raw?
        invariant forall q :: p - pos <= q < |xs| ==> a[pos + num + q] == Live(xs[q])
        invariant forall q :: 0 <= q < a.Length && !(pos <= q < s) ==> a[q] == old(a[q])
      {
        assert a[pos + num + (p - pos)] == Live(xs[p - pos]);
        Destroy(a, p);
        MoveConstruct(a, p, a, p + num);
        p := p + 1;
      }
      DestroyRange(a, s - num, num);
    }

    // ---- the heap ----

    method HeapAllocate(cap: nat) returns (p: Buffer<T>)
      modifies this`owned
      ensures fresh(p) && p.Length == cap && AllRaw(p, 0, cap)
      ensures owned == old(owned) + {p}
    {
      p := new Slot<T>[cap](_ => Raw);
      owned := owned + {p};
    }

    /** A block is given back once, with the capacity it was allocated with, and without
        elements in it. */
    method HeapFree(p: Buffer<T>, cap: nat)
      requires p in owned && cap == p.Length && AllRaw(p, 0, cap)
      modifies this`owned
      ensures owned == old(owned) - {p}
    {
      owned := owned - {p};
    }

    method ChooseData(desired: nat) returns (p: Buffer<T>, cap: nat)
      requires Storage()
      modifies this`owned
      ensures match Choose(buf != stat, capacity, staticCap, revertBelow, desired)
              case Keep => p == buf && cap == capacity && owned == old(owned)
              case Revert => p == stat && cap == staticCap && owned == old(owned)
              case Allocate(c) => fresh(p) && cap == c == p.Length && AllRaw(p, 0, c) && owned == old(owned) + {p}
      ensures desired <= cap == p.Length
    {
      ChoiceFits(buf != stat, capacity, staticCap, revertBelow, desired);
      p, cap := buf, capacity;
      if buf != stat {
        if desired > capacity {
          while cap < desired
            invariant 1 <= cap && Grown(cap, desired) == Grown(capacity, desired)
            decreases desired - cap
          {
            cap := cap * 3;
            cap := cap + 1;
            cap := cap / 2;
          }
          p := HeapAllocate(cap);
        } else if desired < revertBelow {
          p, cap := stat, staticCap;
        }
      } else if desired > staticCap {
        cap := desired;
        p := HeapAllocate(cap);
      }
    }

    // ---- capacity ----

    method Reserve(newCap: nat)
      requires Valid()
      modifies this, buf, stat
      ensures Valid() && contents == old(contents) && newCap <= capacity
      ensures newCap <= old(capacity) ==> buf == old(buf) && moves == old(moves)
      ensures newCap > old(capacity) ==>
                fresh(buf) && moves == old(moves) + size
      ensures old(buf) == stat && newCap > old(capacity) ==> capacity == newCap
      ensures old(buf) != stat && newCap > old(capacity) ==> 2 * capacity < 3 * newCap
    {
      if newCap <= capacity {
        return;
      }
      ChoiceFits(buf != stat, capacity, staticCap, revertBelow, newCap);
      var p, cap := ChooseData(newCap);
      assert p != buf;
      assert p != stat;
      MoveRange(buf, 0, p, 0, size, contents);
      DestroyRange(buf, 0, size);
      if buf != stat {
        HeapFree(buf, capacity);
      }
      buf, capacity := p, cap;
    }

    method ShrinkToFit() returns (shrunk: bool)
      requires Valid()
      modifies this, buf, stat
      ensures Valid() && contents == old(contents)
      ensures buf == old(buf) || buf == stat || fresh(buf)
      ensures shrunk <==> old(buf) != stat && size != old(capacity)
      ensures !shrunk ==> buf == old(buf) && moves == old(moves)
      ensures shrunk ==> capacity == (if size < staticCap then staticCap else size)
      ensures shrunk ==> (IsStatic() <==> size < staticCap) && moves == old(moves) + size
    {
      if size == capacity || buf == stat {
        return false;
      }
      var oldBuf, oldCap := buf, capacity;
      if size < staticCap {
        buf, capacity := stat, staticCap;
      } else {
        buf := HeapAllocate(size);
        capacity := size;
      }
      TransferRange(oldBuf, 0, buf, 0, size, contents);
      HeapFree(oldBuf, oldCap);
      return true;
    }

    /** The answer says "static" also for a heap vector of exactly the static capacity, which
        stays on the heap. */
    method RevertToStatic() returns (reverted: bool)
      requires Valid()
      modifies this, buf, stat
      ensures Valid() && contents == old(contents)
      ensures buf == old(buf) || buf == stat || fresh(buf)
      ensures reverted <==> old(buf) == stat || size <= staticCap
      ensures IsStatic() <==> old(buf) == stat || size < staticCap
    {
      if buf == stat {
        return true;
      }
      if size > staticCap {
        return false;
      }
      var _ := ShrinkToFit();
      return true;
    }

    // ---- growing and shrinking at a position ----

    /** The elements with a gap of `num` raw slots at `pos`. */
    ghost predicate Hole(pos: nat, num: nat)
      requires pos <= |contents|
      reads this, buf, stat
    {
      && Storage()
      && size == |contents| + num <= capacity
      && Holds(buf, 0, contents[..pos]) && AllRaw(buf, pos, pos + num)
      && Holds(buf, pos + num, contents[pos..]) && AllRaw(buf, size, buf.Length)
      && (buf != stat ==> AllRaw(stat, 0, stat.Length))
    }

    /** The buffer is the one chosen for `desired` elements. */
    twostate predicate Housed(desired: nat)
      requires old(1 <= capacity)
      reads this
    {
      match Choose(old(buf) != stat, old(capacity), staticCap, revertBelow, desired)
      case Keep => buf == old(buf) && capacity == old(capacity)
      case Revert => buf == stat
      case Allocate(cap) => fresh(buf) && capacity == cap
    }

    /** Opening an empty gap in place is legal at the end only. */
    ghost predicate GrowIsLegal(pos: int, num: nat)
      requires Storage()
      reads this
    {
      || pos < 0 || pos > size
      || Legal(Choose(buf != stat, capacity, staticCap, revertBelow, size + num), num, pos == size)
    }

    ghost predicate ShrinkIsLegal(pos: int, num: nat)
      requires Storage()
      reads this
    {
      || pos < 0 || pos + num > size
      || Legal(Choose(buf != stat, capacity, staticCap, revertBelow, size - num), num, pos == size)
    }

    /** The number of elements an opening at `pos` moves. */
    ghost function GrowMoves(pos: int, num: nat): int
      requires Valid() && 0 <= pos <= size
      reads this, buf, stat
    {
      if Choose(buf != stat, capacity, staticCap, revertBelow, size + num).Keep? then size - pos else size
    }

    method GrowInPlace(pos: nat, num: nat)
      requires Valid() && pos <= size && size + num <= capacity && (1 <= num || pos == size)
      modifies this, buf
      ensures buf == old(buf) && contents == old(contents)
      ensures Hole(pos, num) && moves == old(moves + size - pos)
    {
      HoldsParts(buf, contents, pos);
      ShiftUp(buf, pos, size, num, contents[pos..]);
      size := size + num;
    }

    /** Everything moves to the buffer `p`, around a gap, and the old buffer is given up. */
    method GrowInto(p: Buffer<T>, cap: nat, pos: nat, num: nat)
      requires Valid(if p == stat then {} else {p}) && pos <= size
      requires p != buf && AllRaw(p, 0, cap) && size + num <= cap == p.Length && staticCap <= cap
      modifies this, buf, p
      ensures buf == p && contents == old(contents)
      ensures Hole(pos, num) && moves == old(moves + size)
    {
      MoveAround(buf, p, pos, num, size, contents);
      if buf != stat {
        HeapFree(buf, capacity);
      }
      buf, capacity := p, cap;
      size := size + num;
    }

    /** A gap in the chosen buffer is what growing that position means. */
    lemma GapIsGrew(was: seq<Slot<T>>, onHeap: bool, pos: nat, num: nat)
      requires pos <= |contents| && Hole(pos, num) && Elements(was, contents)
      requires 1 <= |was| && (!onHeap ==> |was| == staticCap)
      requires var choice := Choose(onHeap, |was|, staticCap, revertBelow, |contents| + num);
        Legal(choice, num, pos == |contents|) && capacity == CapacityOf(choice, |was|, staticCap)
      ensures Grew(was, onHeap, staticCap, revertBelow, |contents|, pos, num) == Some(buf[..])
    {
      GrowIsLegalIff(was, onHeap, staticCap, revertBelow, |contents|, pos, num);
      var r := Grew(was, onHeap, staticCap, revertBelow, |contents|, pos, num).value;
      forall i | 0 <= i < capacity ensures r[i] == buf[..][i] {
        assert r[i] == GappedSlot(was, |contents|, pos, num, i);
        if i < pos {
          assert buf[0 + i] == Live(contents[..pos][i]);
        } else if pos + num <= i < size {
          assert buf[pos + num + (i - pos - num)] == Live(contents[pos..][i - pos - num]);
        }
      }
      assert r == buf[..];
    }

    /** The gap in the buffer that is chosen for it. */
    method OpenGap(pos: nat, num: nat)
      requires Valid() && pos <= size && GrowIsLegal(pos, num)
      modifies this, buf, stat
      ensures contents == old(contents) && Hole(pos, num) && Housed(|contents| + num)
      ensures moves == old(moves + GrowMoves(pos, num))
      ensures buf == old(buf) || buf == stat || fresh(buf)
    {
      ChoiceFits(buf != stat, capacity, staticCap, revertBelow, size + num);
      var p, cap := ChooseData(size + num);
      if p == buf {
        GrowInPlace(pos, num);
      } else {
        GrowInto(p, cap, pos, num);
      }
    }

    method GrowAt(pos: int, num: nat) returns (ok: bool)
      requires Valid() && GrowIsLegal(pos, num)
      modifies this, buf, stat
      ensures contents == old(contents)
      ensures ok <==> 0 <= pos <= |contents|
      ensures !ok ==> Valid() && buf == old(buf) && moves == old(moves)
      ensures ok ==> Hole(pos, num) && moves == old(moves + GrowMoves(pos, num))
      ensures ok ==> Housed(|contents| + num)
      ensures ok ==>
        Some(buf[..]) == Grew(old(buf[..]), old(buf) != stat, staticCap, revertBelow, |contents|, pos, num)
      ensures buf == old(buf) || buf == stat || fresh(buf)
    {
      if pos < 0 || pos > size {
        return false;
      }
      ghost var was, onHeap := buf[..], buf != stat;
      ElementsOf(buf, contents);
      OpenGap(pos, num);
      GapIsGrew(was, onHeap, pos, num);
      return true;
    }

    lemma RestIsShrank(was: seq<Slot<T>>, xs: seq<T>, onHeap: bool, pos: nat, num: nat)
      requires Valid() && pos + num <= |xs| && Elements(was, xs) && contents == xs[..pos] + xs[pos + num..]
      requires 1 <= |was| && (!onHeap ==> |was| == staticCap)
      requires Legal(Choose(onHeap, |was|, staticCap, revertBelow, |xs| - num), num, pos == |xs|)
      requires capacity == ShrunkCapacity(onHeap, |was|, staticCap, revertBelow, |xs| - num)
      ensures Shrank(was, onHeap, staticCap, revertBelow, |xs|, pos, num) == Some(buf[..])
    {
      ShrinkIsLegalIff(was, onHeap, staticCap, revertBelow, |xs|, pos, num);
      var r := Shrank(was, onHeap, staticCap, revertBelow, |xs|, pos, num).value;
      forall i | 0 <= i < capacity ensures r[i] == buf[..][i] {
        assert r[i] == CutSlot(was, |xs|, pos, num, i);
        if i < size {
          assert buf[0 + i] == Live(contents[i]);
        }
      }
      assert r == buf[..];
    }

    method ShrinkInPlace(pos: nat, num: nat)
      requires Valid() && pos + num <= size && (1 <= num || pos == size)
      modifies this, buf
      ensures Valid() && buf == old(buf)
      ensures contents == old(contents[..pos] + contents[pos + num..])
      ensures moves == old(moves + if 1 <= num then size - num - pos else 0)
    {
      ghost var front, gap, back := contents[..pos], contents[pos..pos + num], contents[pos + num..];
      assert Holds(buf, 0, front) && Holds(buf, pos, gap) && Holds(buf, pos + num, back);
      if 1 <= num {
        HoldsLive(buf, pos, gap);
        ShiftDown(buf, pos, size, num, back);
      }
      size := size - num;
      contents := front + back;
    }

    /** Everything that stays moves to the static buffer and the heap block is freed. */
    method ShrinkToStatic(pos: nat, num: nat)
      requires Valid() && pos + num <= size && buf != stat && size - num <= staticCap
      modifies this, buf, stat
      ensures Valid() && buf == stat
      ensures contents == old(contents[..pos] + contents[pos + num..])
      ensures moves == old(moves + size - num)
    {
      TransferAround(buf, stat, pos, num, size, contents);
      HeapFree(buf, capacity);
      buf, capacity := stat, staticCap;
      size := size - num;
      contents := contents[..pos] + contents[pos + num..];
    }

    method CloseGap(pos: nat, num: nat)
      requires Valid() && pos + num <= size && ShrinkIsLegal(pos, num)
      modifies this, buf, stat
      ensures Valid() && contents == old(contents[..pos] + contents[pos + num..])
      ensures buf == if |contents| < revertBelow then stat else old(buf)
    {
      if size - num == 0 {
        assert contents[..pos] + contents[pos + num..] == [];
        Clear();
        return;
      }
      ChoiceFits(buf != stat, capacity, staticCap, revertBelow, size - num);
      var p, _ := ChooseData(size - num);
      if p == buf {
        ShrinkInPlace(pos, num);
      } else {
        assert p == stat;
        ShrinkToStatic(pos, num);
      }
    }

    /** Elements `pos` up to `pos + num` go; the vector may move back to its static buffer. */
    method ShrinkAt(pos: int, num: nat) returns (ok: bool)
      requires Valid() && ShrinkIsLegal(pos, num)
      modifies this, buf, stat
      ensures Valid()
      ensures ok <==> 0 <= pos && pos + num <= |old(contents)|
      ensures contents == if ok then old(contents[..pos] + contents[pos + num..]) else old(contents)
      ensures buf == if ok && |contents| < revertBelow then stat else old(buf)
      ensures ok ==>
        Some(buf[..]) == Shrank(old(buf[..]), old(buf) != stat, staticCap, revertBelow, |old(contents)|, pos, num)
    {
      if pos < 0 || pos > size || pos + num > size {
        return false;
      }
      ghost var was, xs, onHeap := buf[..], contents, buf != stat;
      ElementsOf(buf, contents);
      CloseGap(pos, num);
      RestIsShrank(was, xs, onHeap, pos, num);
      return true;
    }

    method DestroyAll()
      requires Valid()
      modifies buf
      ensures Bare()
    {
      HoldsLive(buf, 0, contents);
      DestroyRange(buf, 0, size);
    }

    method Clear()
      requires Valid()
      modifies this, buf
      ensures Valid() && contents == []
      ensures buf == if 0 < revertBelow then stat else old(buf)
      ensures moves == old(moves)
    {
      DestroyAll();
      if revertBelow > 0 && buf != stat {
        HeapFree(buf, capacity);
        buf, size := stat, 0;
        capacity := staticCap;
      } else {
        size := 0;
      }
      contents := [];
    }

    // ---- modifiers ----

    ghost predicate Filled(pos: nat, xs: seq<T>)
      requires pos <= |contents|
      reads this, buf, stat
    {
      && Storage()
      && size == |contents| + |xs| <= capacity
      && Holds(buf, 0, contents[..pos]) && Holds(buf, pos, xs)
      && Holds(buf, pos + |xs|, contents[pos..]) && AllRaw(buf, size, buf.Length)
      && (buf != stat ==> AllRaw(stat, 0, stat.Length))
    }

    /** The elements put into a gap count as elements. */
    ghost method Settle(pos: nat, xs: seq<T>)
      requires pos <= |contents| && Filled(pos, xs)
      modifies this`contents
      ensures Valid() && contents == old(contents[..pos]) + xs + old(contents[pos..])
    {
      HoldsJoin(buf, contents[..pos], xs);
      HoldsJoin(buf, contents[..pos] + xs, contents[pos..]);
      contents := contents[..pos] + xs + contents[pos..];
    }

    /** Insertion of copies of the elements of a range. */
    method InsertRange(pos: int, xs: seq<T>) returns (ok: bool)
      requires Valid() && GrowIsLegal(pos, |xs|)
      modifies this, buf, stat
      ensures Valid() && (buf == old(buf) || buf == stat || fresh(buf))
      ensures ok <==> 0 <= pos <= |old(contents)|
      ensures contents == if ok then old(contents[..pos]) + xs + old(contents[pos..]) else old(contents)
      ensures ok ==> Housed(|contents|)
      ensures moves == old(moves + if 0 <= pos <= |contents| then GrowMoves(pos, |xs|) else 0)
    {
      ok := GrowAt(pos, |xs|);
      if ok {
        ConstructRange(buf, pos, xs);
        Settle(pos, xs);
      }
    }

    method InsertFill(pos: int, count: nat, x: T) returns (ok: bool)
      requires Valid() && GrowIsLegal(pos, count)
      modifies this, buf, stat
      ensures Valid() && (buf == old(buf) || buf == stat || fresh(buf))
      ensures ok <==> 0 <= pos <= |old(contents)|
      ensures contents == if ok then old(contents[..pos]) + Copies(count, x) + old(contents[pos..]) else old(contents)
      ensures ok ==> Housed(|contents|)
      ensures moves == old(moves + if 0 <= pos <= |contents| then GrowMoves(pos, count) else 0)
    {
      ok := GrowAt(pos, count);
      if ok {
        ConstructFill(buf, pos, count, x);
        assert Holds(buf, 0, contents[..pos]) && Holds(buf, pos + count, contents[pos..]);
        Settle(pos, Copies(count, x));
      }
    }

    method Insert(pos: int, x: T) returns (ok: bool)
      requires Valid()
      modifies this, buf, stat
      ensures Valid() && (buf == old(buf) || buf == stat || fresh(buf))
      ensures ok <==> 0 <= pos <= |old(contents)|
      ensures contents == if ok then old(contents[..pos]) + [x] + old(contents[pos..]) else old(contents)
      ensures ok ==> Housed(|contents|)
      ensures moves == old(moves + if 0 <= pos <= |contents| then GrowMoves(pos, 1) else 0)
    {
      ok := GrowAt(pos, 1);
      if ok {
        Construct(buf, pos, x);
        assert Holds(buf, 0, contents[..pos]) && Holds(buf, pos + 1, contents[pos..]);
        Settle(pos, [x]);
      }
    }

    method PushBack(x: T)
      requires Valid()
      modifies this, buf, stat
      ensures Valid() && (buf == old(buf) || buf == stat || fresh(buf))
      ensures contents == old(contents) + [x]
      ensures Housed(|contents|)
      ensures moves == old(moves + GrowMoves(size, 1))
    {
      var ok := Insert(size, x);
    }

    method Erase(first: int, last: int) returns (ok: bool)
      requires Valid() && (last < first || ShrinkIsLegal(first, last - first))
      modifies this, buf, stat
      ensures Valid() && buf == if ok && |contents| < revertBelow then stat else old(buf)
      ensures ok <==> 0 <= first <= last <= |old(contents)|
      ensures contents == if ok then old(contents[..first] + contents[last..]) else old(contents)
    {
      if first > last {
        return false;
      }
      ok := ShrinkAt(first, last - first);
    }

    method PopBack() returns (ok: bool)
      requires Valid()
      modifies this, buf, stat
      ensures Valid() && buf == if ok && |contents| < revertBelow then stat else old(buf)
      ensures ok <==> 0 < |old(contents)|
      ensures contents == if ok then old(contents[..|contents| - 1]) else []
    {
      ok := ShrinkAt(size - 1, 1);
    }

    method DestroyDownTo(n: nat)
      requires Valid() && n <= size
      modifies this, buf
      ensures Valid() && buf == old(buf) && moves == old(moves) && capacity == old(capacity)
      ensures contents == old(contents)[..n]
    {
      while size > n
        invariant Valid() && buf == old(buf) && moves == old(moves) && capacity == old(capacity)
        invariant n <= size <= |old(contents)| && contents == old(contents)[..size]
      {
        assert buf[0 + (size - 1)] == Live(contents[size - 1]);
        size := size - 1;
        Destroy(buf, size);
        contents := contents[..size];
      }
    }

    method ConstructUpTo(n: nat, x: T)
      requires Valid() && size <= n <= capacity
      modifies this, buf
      ensures Valid() && buf == old(buf) && moves == old(moves) && capacity == old(capacity)
      ensures contents == old(contents) + Copies(n - |old(contents)|, x)
    {
      while n > size
        invariant Valid() && buf == old(buf) && moves == old(moves) && capacity == old(capacity)
        invariant |old(contents)| <= size <= n
        invariant contents == old(contents) + Copies(size - |old(contents)|, x)
      {
        Construct(buf, size, x);
        size := size + 1;
        contents := contents + [x];
      }
    }

    /** Unlike erasure, a resize never goes back to the static buffer. */
    method Resize(n: nat, x: T)
      requires Valid()
      modifies this, buf, stat
      ensures Valid() && (buf == old(buf) || fresh(buf))
      ensures contents == if n <= |old(contents)| then old(contents)[..n]
                          else old(contents) + Copies(n - |old(contents)|, x)
      ensures n <= old(capacity) ==> buf == old(buf) && moves == old(moves)
    {
      Reserve(n);
      if size > n {
        DestroyDownTo(n);
      } else {
        ConstructUpTo(n, x);
      }
    }

    // ---- assignment, moves and destruction ----

    method AssignCopy(xs: seq<T>)
      requires Bare()
      modifies this, buf, stat
      ensures Valid() && contents == xs && Housed(|xs|)
      ensures buf == old(buf) || buf == stat || fresh(buf)
    {
      ChoiceFits(buf != stat, capacity, staticCap, revertBelow, |xs|);
      var p, cap := ChooseData(|xs|);
      ConstructRange(p, 0, xs);
      if buf != stat && buf != p {
        HeapFree(buf, capacity);
      }
      buf, capacity, size := p, cap, |xs|;
      contents := xs;
    }

    /** Assignment of a range, and of another vector by copying it. */
    method Assign(xs: seq<T>)
      requires Valid()
      modifies this, buf, stat
      ensures Valid() && contents == xs && Housed(|xs|)
      ensures buf == old(buf) || buf == stat || fresh(buf)
    {
      DestroyAll();
      AssignCopy(xs);
    }

    /** Nothing of this vector and the other one is shared. */
    ghost predicate Apart(v: SmallVec<T>)
      reads this, v
    {
      && v != this && v.staticCap == staticCap && v.revertBelow == revertBelow
      && {buf, stat} !! {v.buf, v.stat}
    }

    method TakeImpl(v: SmallVec<T>)
      requires v != this && v.staticCap == staticCap && v.revertBelow == revertBelow
      requires stat !in {v.buf, v.stat} && v.Valid()
      requires stat.Length == staticCap && AllRaw(stat, 0, staticCap) && owned == {} && capacity == v.capacity
      modifies this, stat, v, v.buf
      ensures Valid() && v.Valid() && Apart(v) && v.IsStatic()
      ensures contents == old(v.contents) && v.contents == []
      ensures buf == if old(v.buf) == v.stat then stat else old(v.buf)
      ensures moves == old(moves + if v.buf == v.stat then v.size else 0) && v.moves == old(v.moves)
    {
      if v.buf == v.stat {
        MoveRange(v.stat, 0, stat, 0, v.size, v.contents);
        DestroyRange(v.stat, 0, v.size);
        buf, size := stat, v.size;
      } else {
        buf, size := v.buf, v.size;
        owned, v.owned := v.owned, {};
      }
      contents, v.contents := v.contents, [];
      v.buf, v.size := v.stat, 0;
      v.capacity := v.staticCap;
    }

    constructor Move(v: SmallVec<T>)
      requires v.Valid()
      modifies v, v.buf
      ensures Valid() && v.Valid() && Apart(v) && v.IsStatic()
      ensures contents == old(v.contents) && v.contents == []
      ensures buf == if old(v.buf) == v.stat then stat else old(v.buf)
    {
      var a := new Slot<T>[v.staticCap](_ => Raw);
      staticCap, revertBelow := v.staticCap, v.revertBelow;
      stat, buf, size, capacity := a, a, 0, v.capacity;
      contents, owned, moves := [], {}, 0;
      new;
      TakeImpl(v);
    }

    method MoveAssign(v: SmallVec<T>)
      requires Valid() && v.Valid() && (v != this ==> Apart(v))
      modifies this, buf, stat, v, v.buf
      ensures Valid() && v.Valid() && (v != this ==> Apart(v) && v.IsStatic())
      ensures contents == old(v.contents) && (v != this ==> v.contents == [])
      ensures v != this ==> buf == if old(v.buf) == v.stat then stat else old(v.buf)
    {
      if v == this {
        return;
      }
      DestroyAll();
      if buf != stat {
        HeapFree(buf, capacity);
      }
      capacity := v.capacity;
      TakeImpl(v);
    }

    /** Nothing is left constructed and no block is left on the heap. */
    method Destructor()
      requires Valid()
      modifies this, buf, stat
      ensures owned == {} && buf == old(buf) && AllRaw(buf, 0, buf.Length) && AllRaw(stat, 0, stat.Length)
    {
      DestroyAll();
      if buf != stat {
        HeapFree(buf, capacity);
      }
    }

    /** Insertion at the end, over and over: the whole run moves as many elements as counted by
        `Pushed`, which is at most four for each element. */
    method PushAll(xs: seq<T>)
      requires Valid() && contents == [] && IsStatic()
      modifies this, buf, stat
      ensures Valid() && contents == xs
      ensures old(moves) <= moves <= old(moves) + 4 * |xs|
      ensures Pushed(staticCap, revertBelow, |xs|) == Cost(buf != stat, capacity, moves - old(moves))
    {
      var i := 0;
      while i < |xs|
        invariant 0 <= i <= |xs|
        invariant Valid() && contents == xs[..i]
        invariant buf == stat || fresh(buf)
        invariant old(moves) <= moves
        invariant Pushed(staticCap, revertBelow, i) == Cost(buf != stat, capacity, moves - old(moves))
      {
        PushBack(xs[i]);
        i := i + 1;
      }
      PushesAreCheap(staticCap, revertBelow, |xs|);
    }
  }
}