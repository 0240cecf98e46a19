/** `DataBuffer<T>`: a fixed-size, owning array with copy and move
    construction. A buffer is the pair (owning pointer, element count); the
    arrays themselves live in a `Heap`, so that the model can say which
    storage a buffer owns, that a copy gets storage of its own, and that a
    move hands the storage over and leaves the source empty. */
module Buffers {

  /** An array pointer: null, or the address of an array in the heap. */
  datatype Ptr = Null | Addr(a: nat)

  /** The object itself: the `buffer` pointer and `_size`. */
  datatype DataBuffer = DataBuffer(buffer: Ptr, size: nat)

  /** The arrays handed out by `new T[]` and not yet released by
      `delete[]`, and the next address the allocator will use. */
  datatype Heap<T> = Heap(arrays: map<nat, seq<T>>, next: nat) {

    /** Every live array sits below the next fresh address. */
    ghost predicate Valid() {
      forall a | a in arrays :: a < next
    }

    /** `b` owns a live array holding exactly `b.size` elements. */
    predicate Owns(b: DataBuffer) {
      b.buffer.Addr? && b.buffer.a in arrays && |arrays[b.buffer.a]| == b.size
    }

    /** The elements of a buffer. */
    function Contents(b: DataBuffer): seq<T>
      requires Owns(b)
    {
      arrays[b.buffer.a]
    }
  }

  /** Stores `elems` in a fresh array: the common step of every constructor
      that allocates. */
  function Allocate<T>(h: Heap<T>, elems: seq<T>): (res: (Heap<T>, DataBuffer))
    requires h.Valid()
    ensures var (h', b) := res;
            && h'.Valid()
            && b.buffer.Addr? && b.buffer.a !in h.arrays
            && h'.Owns(b) && h'.Contents(b) == elems && b.size == |elems|
            && (forall a | a in h.arrays :: a in h'.arrays && h'.arrays[a] == h.arrays[a])
  {
    (Heap(h.arrays[h.next := elems], h.next + 1), DataBuffer(Addr(h.next), |elems|))
  }

  /** `DataBuffer(size)`: `new T[size]` leaves the elements indeterminate;
      the model lets the caller choose them. */
  function NewBuffer<T>(h: Heap<T>, size: nat, indeterminate: seq<T>): (res: (Heap<T>, DataBuffer))
    requires h.Valid() && |indeterminate| == size
    ensures res.0.Valid() && res.0.Owns(res.1)
    ensures res.1.size == size && |res.0.Contents(res.1)| == size
    ensures res.1.buffer.Addr? && res.1.buffer.a !in h.arrays
    ensures forall a | a in h.arrays :: a in res.0.arrays && res.0.arrays[a] == h.arrays[a]
  {
    Allocate(h, indeterminate)
  }

  /** `DataBuffer(const T *data, size_t size)`: copies the first `size`
      elements the pointer points at; reading beyond them is undefined, so
      the source must have at least `size` elements. */
  function FromPointer<T>(h: Heap<T>, data: seq<T>, size: nat): (res: (Heap<T>, DataBuffer))
    requires h.Valid() && size <= |data|
    ensures var (h', b) := res;
            && h'.Valid() && h'.Owns(b) && b.size == size
            && (forall i | 0 <= i < size :: h'.Contents(b)[i] == data[i])
            && b.buffer.a !in h.arrays
            && (forall a | a in h.arrays :: a in h'.arrays && h'.arrays[a] == h.arrays[a])
  {
    Allocate(h, data[..size])
  }

  /** The copy constructor: fresh storage, same size, same elements. */
  function Copy<T>(h: Heap<T>, rhs: DataBuffer): (res: (Heap<T>, DataBuffer))
    requires h.Valid() && h.Owns(rhs)
    ensures var (h', b) := res;
            && h'.Valid() && h'.Owns(b) && h'.Owns(rhs)
            && b.size == rhs.size && h'.Contents(b) == h.Contents(rhs)
            && h'.Contents(rhs) == h.Contents(rhs)
            && b.buffer != rhs.buffer
            && (forall a | a in h.arrays :: a in h'.arrays && h'.arrays[a] == h.arrays[a])
  {
    Allocate(h, h.Contents(rhs))
  }

  /** The move constructor: the new object takes over the array and the
      size; the source is left with a null pointer and size 0. Returns the
      new object and the source after the move. */
  function Move(rhs: DataBuffer): (res: (DataBuffer, DataBuffer))
    ensures res.0.buffer == rhs.buffer && res.0.size == rhs.size
    ensures res.1.buffer == Null && res.1.size == 0
  {
    (DataBuffer(rhs.buffer, rhs.size), DataBuffer(Null, 0))
  }

  /** The destructor: `delete[]` of the owned array (nothing for null). */
  function Destroy<T>(h: Heap<T>, b: DataBuffer): (h': Heap<T>)
    requires h.Valid()
    ensures h'.Valid()
    ensures b.buffer.Addr? ==> b.buffer.a !in h'.arrays
    ensures forall a | a in h.arrays && b.buffer != Addr(a) :: a in h'.arrays && h'.arrays[a] == h.arrays[a]
  {
    match b.buffer
    case Null => h
    case Addr(a) => Heap(h.arrays - {a}, h.next)
  }

  /** Reading `operator[]`: unchecked, so the index must be below `size()`. */
  function Get<T>(h: Heap<T>, b: DataBuffer, index: nat): (v: T)
    requires h.Owns(b) && index < b.size
    ensures v == h.Contents(b)[index] && v in h.Contents(b)
  {
    h.Contents(b)[index]
  }

  /** Writing through `operator[]`: element `index` of this buffer takes the
      value, every other element of every array is unchanged, and the size
      stays what it was. */
  function Set<T>(h: Heap<T>, b: DataBuffer, index: nat, v: T): (h': Heap<T>)
    requires h.Valid() && h.Owns(b) && index < b.size
    ensures h'.Valid() && h'.Owns(b) && h'.arrays.Keys == h.arrays.Keys
    ensures h'.Contents(b)[index] == v
    ensures forall i | 0 <= i < b.size && i != index :: h'.Contents(b)[i] == h.Contents(b)[i]
    ensures forall a | a in h.arrays && Addr(a) != b.buffer :: h'.arrays[a] == h.arrays[a]
  {
    Heap(h.arrays[b.buffer.a := h.Contents(b)[index := v]], h.next)
  }

  /** Reading back through `operator[]` after a write: the written slot
      gives the new value, every other slot its old one. */
  lemma SetThenGet<T>(h: Heap<T>, b: DataBuffer, i: nat, j: nat, v: T)
    requires h.Valid() && h.Owns(b) && i < b.size && j < b.size
    ensures Get(Set(h, b, i, v), b, j) == if i == j then v else Get(h, b, j)
  {
  }

  /** Writing into a copy never disturbs the original. */
  lemma CopyIsIndependent<T>(h: Heap<T>, rhs: DataBuffer, index: nat, v: T)
    requires h.Valid() && h.Owns(rhs) && index < rhs.size
    ensures var (h1, c) := Copy(h, rhs);
            var h2 := Set(h1, c, index, v);
            h2.Owns(rhs) && h2.Contents(rhs) == h.Contents(rhs)
            && h2.Contents(c) == h.Contents(rhs)[index := v]
  {
    var (h1, c) := Copy(h, rhs);
    var h2 := Set(h1, c, index, v);
    assert h2.Contents(c) == h.Contents(rhs)[index := v];
  }

  /** After a move, destroying the emptied source releases nothing: the new
      owner's elements survive. */
  lemma MoveTransfersOwnership<T>(h: Heap<T>, rhs: DataBuffer)
    requires h.Valid() && h.Owns(rhs)
    ensures var (dest, src) := Move(rhs);
            var h' := Destroy(h, src);
            h'.Owns(dest) && h'.Contents(dest) == h.Contents(rhs)
  {
  }
}
