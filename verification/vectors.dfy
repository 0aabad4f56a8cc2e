/** The growable array `Vector<T>` of Util/Vector.h, the collection the
    server keeps its device records in.

    The buffer is modelled as a whole: `data` is the allocated storage (the
    field `Size` is `|data|`) and only its first `length` slots hold
    elements. Slots the source leaves indeterminate (fresh `malloc` or
    `realloc` storage) are filled with a caller-supplied `filler`. */
module Vectors {
  import opened Wrappers
  import opened Ints

  /** VECTOR_DEFAULT_SIZE: the capacity used when the requested one is not positive. */
  const DefaultSize: nat := 16

  datatype Vector<T> = Vector(data: seq<T>, length: nat)

  /** What `operator[]` throws for an index at or past `Length`. */
  datatype VectorError = OutOfBounds

  /** The representation invariant: the used prefix fits in the buffer. */
  ghost predicate Valid<T>(v: Vector<T>)
  {
    v.length <= |v.data|
  }

  /** The field `Size`: the number of allocated slots. */
  function Capacity<T>(v: Vector<T>): nat
  {
    |v.data|
  }

  /** The elements a caller can see, in index order. */
  function Items<T>(v: Vector<T>): seq<T>
    requires Valid(v)
  {
    v.data[..v.length]
  }

  /** The constructor `Vector(InitSize)`. */
  function New<T>(initSize: Int32, filler: T): (v: Vector<T>)
    ensures Valid(v) && Items(v) == []
    ensures initSize <= 0 ==> Capacity(v) == DefaultSize
    ensures initSize > 0 ==> Capacity(v) == initSize
  {
    var size: nat := if initSize <= 0 then DefaultSize else initSize;
    Vector(seq(size, _ => filler), 0)
  }

  /** `GetLength`. */
  function GetLength<T>(v: Vector<T>): (n: nat)
    requires Valid(v)
    ensures n == |Items(v)|
  {
    v.length
  }

  /** `operator[]` read: throws for an index at or past `Length`. */
  function At<T>(v: Vector<T>, x: nat): (r: Result<T, VectorError>)
    requires Valid(v)
    ensures r.Success? <==> x < |Items(v)|
    ensures r.Success? ==> r.value == Items(v)[x]
  {
    if x >= v.length then Failure(OutOfBounds) else Success(v.data[x])
  }

  /** `operator[]` as an assignment target, with the same bounds check. */
  function Put<T>(v: Vector<T>, x: nat, e: T): (r: Result<Vector<T>, VectorError>)
    requires Valid(v)
    ensures r.Success? <==> x < |Items(v)|
    ensures r.Success? ==> Valid(r.value) && Capacity(r.value) == Capacity(v)
    ensures r.Success? ==> Items(r.value) == Items(v)[x := e]
  {
    if x >= v.length then Failure(OutOfBounds)
    else
      var w := Vector(v.data[x := e], v.length);
      assert Items(w) == Items(v)[x := e];
      Success(w)
  }

  /** The private `expandFor`: make room for `postLength` elements, doubling
      the buffer when that suffices and growing it by `postLength` otherwise. */
  function ExpandFor<T>(v: Vector<T>, postLength: nat, filler: T): (r: Vector<T>)
    requires Valid(v)
    ensures Valid(r) && Items(r) == Items(v)
    ensures Capacity(r) >= postLength
    ensures postLength <= Capacity(v) ==> r == v
    ensures Capacity(v) < postLength <= 2 * Capacity(v) ==> Capacity(r) == 2 * Capacity(v)
    ensures 2 * Capacity(v) < postLength ==> Capacity(r) == postLength + Capacity(v)
  {
    if postLength <= |v.data| then v
    else
      var newSize := if |v.data| * 2 >= postLength then |v.data| * 2 else postLength + |v.data|;
      Vector(v.data + seq(newSize - |v.data|, _ => filler), v.length)
  }

  /** `Push`: append one element, growing the buffer first if it is full. */
  function Push<T>(v: Vector<T>, x: T): (r: Vector<T>)
    requires Valid(v)
    ensures Valid(r) && Items(r) == Items(v) + [x]
    ensures Capacity(r) >= Capacity(v)
  {
    var w := ExpandFor(v, v.length + 1, x);
    var r := Vector(w.data[w.length := x], w.length + 1);
    assert Items(r) == Items(w) + [x];
    r
  }

  /** `Pop`: shorten by one and return the element that was last. The source
      does not check for an empty vector (it decrements an unsigned zero). */
  function Pop<T>(v: Vector<T>): (r: (Vector<T>, T))
    requires Valid(v) && v.length > 0
    ensures Valid(r.0) && Capacity(r.0) == Capacity(v)
    ensures Items(v) == Items(r.0) + [r.1]
  {
    var w := Vector(v.data, v.length - 1);
    assert Items(v) == Items(w) + [v.data[v.length - 1]];
    (w, v.data[v.length - 1])
  }

  /** `Peek`: the last element, with no change. Unchecked on an empty vector. */
  function Peek<T>(v: Vector<T>): (r: T)
    requires Valid(v) && v.length > 0
    ensures r == Items(v)[|Items(v)| - 1]
  {
    v.data[v.length - 1]
  }

  /** `Remove(start, length)` as intended: a start at or past the end is a
      no-op, and otherwise the run [start, start + length), clipped to the
      end, is cut out while the rest keeps its order. The copy loop moves the
      tail down and leaves the buffer past the new end untouched. */
  function Remove<T>(v: Vector<T>, start: nat, len: nat): (r: Vector<T>)
    requires Valid(v)
    ensures Valid(r) && Capacity(r) == Capacity(v)
    ensures start >= |Items(v)| ==> r == v
    ensures start < |Items(v)| ==>
      var stop := if start + len > |Items(v)| then |Items(v)| else start + len;
      Items(r) == Items(v)[..start] + Items(v)[stop..]
  {
    if start >= v.length then v
    else
      var cut := if len > v.length - start then v.length - start else len;
      var r := Vector(v.data[..start] + v.data[start + cut..v.length] + v.data[v.length - cut..], v.length - cut);
      assert Items(r) == Items(v)[..start] + Items(v)[start + cut..];
      r
  }

  /** `IndexOf(x, start)`: the least index at or after `start` holding `x`,
      or -1 when there is none. */
  method IndexOf<T(==)>(v: Vector<T>, x: T, start: nat) returns (r: int)
    requires Valid(v)
    ensures r == -1 || start <= r < |Items(v)|
    ensures r >= 0 ==> Items(v)[r] == x
    ensures r >= 0 ==> forall k :: start <= k < r ==> Items(v)[k] != x
    ensures r == -1 <==> forall k :: start <= k < |Items(v)| ==> Items(v)[k] != x
  {
    var i := start;
    while i < v.length
      invariant start <= i
      invariant forall k :: start <= k < i && k < |Items(v)| ==> Items(v)[k] != x
    {
      if v.data[i] == x {
        return i;
      }
      i := i + 1;
    }
    return -1;
  }

  /** Popping right after a push gives back the pushed element and the old items. */
  lemma PushThenPop<T>(v: Vector<T>, x: T)
    requires Valid(v)
    ensures Pop(Push(v, x)).1 == x
    ensures Items(Pop(Push(v, x)).0) == Items(v)
  {
    var p := Push(v, x);
    assert Items(p) == Items(v) + [x];
    var (w, y) := Pop(p);
    assert Items(w) + [y] == Items(v) + [x];
    assert Items(w) == (Items(w) + [y])[..|Items(w)|];
  }

  /** Peeking right after a push sees the pushed element. */
  lemma PushThenPeek<T>(v: Vector<T>, x: T)
    requires Valid(v)
    ensures Peek(Push(v, x)) == x
  {
  }

  /** Removing the single last element undoes a push. */
  lemma PushThenRemoveLast<T>(v: Vector<T>, x: T)
    requires Valid(v)
    ensures Items(Remove(Push(v, x), |Items(v)|, 1)) == Items(v)
  {
    var p := Push(v, x);
    assert Items(p)[..|Items(v)|] == Items(v);
  }

  /** Removing one element at a valid index deletes exactly that element. */
  lemma RemoveOneDeletes<T>(v: Vector<T>, i: nat)
    requires Valid(v) && i < |Items(v)|
    ensures Items(Remove(v, i, 1)) == Items(v)[..i] + Items(v)[i + 1..]
  {
  }

  /** A push never more than doubles a non-empty buffer. */
  lemma PushGrowth<T>(v: Vector<T>, x: T)
    requires Valid(v) && Capacity(v) >= 1
    ensures Capacity(Push(v, x)) == Capacity(v) || Capacity(Push(v, x)) == 2 * Capacity(v)
  {
  }

  /** `Remove` exactly as written: `start`, `length` and the field `Length`
      are `uint32_t`, so the clamp test `start + length > Length`, the loop
      bound `Length - length` and the source index `i + length` all wrap
      modulo 2^32. `None` is an access outside the buffer (undefined
      behaviour in the source). */
  function RemoveAsWritten<T>(v: Vector<T>, start: Uint32, len: Uint32): (r: Option<Vector<T>>)
    requires Valid(v) && v.length < TwoTo32
    ensures r.Some? ==> Valid(r.value) && Capacity(r.value) == Capacity(v)
  {
    if start >= v.length then Some(v)
    else
      var cut := if (start + len) % TwoTo32 > v.length then v.length - start else len;
      var bound := (v.length - cut) % TwoTo32;
      match ShiftDown(v.data, start, bound, cut)
      case None => None
      case Some(data) =>
        assert bound <= start || bound <= |data|;
        Some(Vector(data, bound))
  }

  /** The copy loop `for (i = start; i < bound; i++) Data[i] = Data[i + cut]`
      with `i + cut` computed modulo 2^32. */
  function ShiftDown<T>(data: seq<T>, i: nat, bound: nat, cut: nat): (r: Option<seq<T>>)
    ensures r.Some? ==> |r.value| == |data|
    ensures r.Some? && i < bound ==> bound <= |data|
    decreases bound - i
  {
    if i >= bound then Some(data)
    else
      var src := (i + cut) % TwoTo32;
      if i >= |data| || src >= |data| then None
      else ShiftDown(data[i := data[src]], i + 1, bound, cut)
  }

  /** Without wrap-around the copy loop moves the run [i + cut, bound + cut)
      down to i and leaves everything else in place. */
  lemma {:induction false} ShiftDownMovesTail<T>(data: seq<T>, i: nat, bound: nat, cut: nat)
    requires i <= bound && bound + cut <= |data| && bound + cut < TwoTo32
    ensures ShiftDown(data, i, bound, cut) == Some(data[..i] + data[i + cut..bound + cut] + data[bound..])
    decreases bound - i
  {
    if i == bound {
      assert data[..i] + data[i + cut..bound + cut] + data[bound..] == data;
    } else {
      assert (i + cut) % TwoTo32 == i + cut;
      var d := data[i := data[i + cut]];
      assert ShiftDown(data, i, bound, cut) == ShiftDown(d, i + 1, bound, cut);
      ShiftDownMovesTail(d, i + 1, bound, cut);
      ShiftOneSplice(data, i, bound, cut);
    }
  }

  /** One iteration of the copy loop extends the moved run by one element. */
  lemma ShiftOneSplice<T>(data: seq<T>, i: nat, bound: nat, cut: nat)
    requires i < bound && bound + cut <= |data|
    ensures var d := data[i := data[i + cut]];
      d[..i + 1] + d[i + 1 + cut..bound + cut] + d[bound..]
        == data[..i] + data[i + cut..bound + cut] + data[bound..]
  {
    var d := data[i := data[i + cut]];
    assert d[..i + 1] == data[..i] + [data[i + cut]];
    assert d[i + 1 + cut..bound + cut] == data[i + 1 + cut..bound + cut];
    assert d[bound..] == data[bound..];
    assert [data[i + cut]] + data[i + 1 + cut..bound + cut] == data[i + cut..bound + cut];
  }

  /** When `start + length` does not wrap, the written `Remove` is the
      intended one; the registry's `Remove(i, 1)` with `i < Length` is such a call. */
  lemma RemoveAsWrittenWithoutWrap<T>(v: Vector<T>, start: Uint32, len: Uint32)
    requires Valid(v) && v.length < TwoTo32 && start + len < TwoTo32
    ensures RemoveAsWritten(v, start, len) == Some(Remove(v, start, len))
  {
    if start < v.length {
      var cut := if len > v.length - start then v.length - start else len;
      var data := v.data[..start] + v.data[start + cut..v.length] + v.data[v.length - cut..];
      WrittenShiftWithoutWrap(v, start, len, cut);
      assert RemoveAsWritten(v, start, len) == Some(Vector(data, v.length - cut));
      assert Remove(v, start, len) == Vector(data, v.length - cut);
    }
  }

  /** Without wrap-around the written clamp and loop bound are the intended
      ones, and the copy loop succeeds with the intended buffer. */
  lemma WrittenShiftWithoutWrap<T>(v: Vector<T>, start: Uint32, len: Uint32, cut: nat)
    requires Valid(v) && v.length < TwoTo32 && start + len < TwoTo32 && start < v.length
    requires cut == if len > v.length - start then v.length - start else len
    ensures (if (start + len) % TwoTo32 > v.length then v.length - start else len) == cut
    ensures (v.length - cut) % TwoTo32 == v.length - cut
    ensures ShiftDown(v.data, start, v.length - cut, cut) ==
      Some(v.data[..start] + v.data[start + cut..v.length] + v.data[v.length - cut..])
  {
    assert (start + len) % TwoTo32 == start + len;
    ShiftDownMovesTail(v.data, start, v.length - cut, cut);
  }

  /** The wrap-around defect: on the two items [10, 20], `Remove(1, 0xFFFFFFFF)`
      as written yields three items [10, 10, 10], where the intended result is [10]. */
  lemma RemoveWrapCounterexample()
    ensures var v := Vector([10, 20] + seq(14, _ => 0), 2);
      && RemoveAsWritten(v, 1, 0xFFFF_FFFF).Some?
      && Items(RemoveAsWritten(v, 1, 0xFFFF_FFFF).value) == [10, 10, 10]
      && Items(Remove(v, 1, 0xFFFF_FFFF)) == [10]
  {
    var v := Vector([10, 20] + seq(14, _ => 0), 2);
    var d1 := v.data[1 := v.data[0]];
    var d2 := d1[2 := d1[1]];
    assert ShiftDown(d2, 3, 3, 0xFFFF_FFFF) == Some(d2);
    assert ShiftDown(d1, 2, 3, 0xFFFF_FFFF) == Some(d2);
    assert ShiftDown(v.data, 1, 3, 0xFFFF_FFFF) == Some(d2);
    assert d2[..3] == [10, 10, 10];
  }
}
