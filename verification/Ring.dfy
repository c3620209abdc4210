/** The byte ring of the shared-memory channel: `mc_put` and `mc_get` between the wait loop and the unlock. */
module Ring {

  type Byte = b: int | 0 <= b < 256

  /** The fields of mem_channel_t that the lock protects; `buf` is the flexible array behind the header. */
  datatype Ring = Ring(buf: seq<Byte>, iput: nat, iget: nat, capacity: nat, elemSize: nat, size: nat)

  type Item = seq<Byte>

  /** The slot reached from slot `i` after `k <= capacity` increments that wrap to zero. */
  function Advance(i: nat, k: nat, capacity: nat): nat {
    if i + k < capacity then i + k else i + k - capacity
  }

  predicate Valid(r: Ring) {
    && |r.buf| == r.capacity * r.elemSize
    && r.size <= r.capacity
    && (if r.capacity == 0 then r.iget == 0 else r.iget < r.capacity)
    && r.iput == Advance(r.iget, r.size, r.capacity)
  }

  lemma SlotFits(i: nat, capacity: nat, elemSize: nat)
    requires i < capacity
    ensures 0 <= i * elemSize <= i * elemSize + elemSize <= capacity * elemSize
  {
    assert (i + 1) * elemSize == i * elemSize + elemSize;
    MulMonotone(i + 1, capacity, elemSize);
  }

  lemma MulMonotone(a: nat, b: nat, c: nat)
    requires a <= b
    ensures a * c <= b * c
  {
  }

  lemma SlotsApart(i: nat, j: nat, elemSize: nat)
    requires i < j
    ensures i * elemSize + elemSize <= j * elemSize
  {
    assert (i + 1) * elemSize == i * elemSize + elemSize;
    MulMonotone(i + 1, j, elemSize);
  }

  function Slot(r: Ring, i: nat): (item: Item)
    requires Valid(r) && i < r.capacity
    ensures |item| == r.elemSize
  {
    SlotFits(i, r.capacity, r.elemSize);
    r.buf[i * r.elemSize..i * r.elemSize + r.elemSize]
  }

  /** What the ring holds, oldest first. */
  function Contents(r: Ring): (c: seq<Item>)
    requires Valid(r)
    ensures |c| == r.size
  {
    seq(r.size, k requires 0 <= k < r.size => Slot(r, Advance(r.iget, k, r.capacity)))
  }

  function Next(i: nat, capacity: nat): nat {
    if i + 1 == capacity then 0 else i + 1
  }

  function PutSpec(r: Ring, item: Item): Ring
    requires Valid(r) && r.size < r.capacity && |item| == r.elemSize
  {
    SlotFits(r.iput, r.capacity, r.elemSize);
    r.(buf := r.buf[..r.iput * r.elemSize] + item + r.buf[r.iput * r.elemSize + r.elemSize..],
       iput := Next(r.iput, r.capacity), size := r.size + 1)
  }

  function GetSpec(r: Ring): Ring
    requires Valid(r) && 0 < r.size
  {
    r.(iget := Next(r.iget, r.capacity), size := r.size - 1)
  }

  lemma PutIsValid(r: Ring, item: Item)
    requires Valid(r) && r.size < r.capacity && |item| == r.elemSize
    ensures Valid(PutSpec(r, item))
  {
    SlotFits(r.iput, r.capacity, r.elemSize);
  }

  /** A put changes the bytes of its own slot and of no other. */
  lemma PutTouchesOneSlot(r: Ring, item: Item, i: nat)
    requires Valid(r) && r.size < r.capacity && |item| == r.elemSize && i < r.capacity
    ensures Valid(PutSpec(r, item))
    ensures Slot(PutSpec(r, item), i) == if i == r.iput then item else Slot(r, i)
  {
    PutIsValid(r, item);
    var r' := PutSpec(r, item);
    var a, b, e := i * r.elemSize, r.iput * r.elemSize, r.elemSize;
    SlotFits(i, r.capacity, r.elemSize);
    SlotFits(r.iput, r.capacity, r.elemSize);
    if i < r.iput {
      SlotsApart(i, r.iput, e);
    } else if r.iput < i {
      SlotsApart(r.iput, i, e);
    }
    assert forall k :: 0 <= k < b ==> r'.buf[k] == r.buf[k];
    assert forall k :: 0 <= k < e ==> r'.buf[b + k] == item[k];
    assert forall k :: b + e <= k < |r.buf| ==> r'.buf[k] == r.buf[k];
  }

  lemma PutAppends(r: Ring, item: Item)
    requires Valid(r) && r.size < r.capacity && |item| == r.elemSize
    ensures Valid(PutSpec(r, item)) && Contents(PutSpec(r, item)) == Contents(r) + [item]
  {
    PutIsValid(r, item);
    var r' := PutSpec(r, item);
    forall k | 0 <= k < r'.size
      ensures Contents(r')[k] == (Contents(r) + [item])[k]
    {
      PutTouchesOneSlot(r, item, Advance(r.iget, k, r.capacity));
    }
  }

  lemma GetRemovesFirst(r: Ring)
    requires Valid(r) && 0 < r.size
    ensures Valid(GetSpec(r)) && [Slot(r, r.iget)] + Contents(GetSpec(r)) == Contents(r)
  {
    var r' := GetSpec(r);
    forall k | 0 <= k < r'.size
      ensures Contents(r')[k] == Contents(r)[k + 1]
    {
      assert Advance(r'.iget, k, r.capacity) == Advance(r.iget, k + 1, r.capacity);
    }
  }

  /** The write index is the read index plus the size, modulo the capacity. */
  lemma WriteIndex(r: Ring)
    requires Valid(r) && r.capacity > 0
    ensures r.iput == (r.iget + r.size) % r.capacity
  {
    var n := r.iget + r.size;
    if n >= r.capacity {
      RemainderOnce(n, r.capacity);
    }
  }

  lemma RemainderOnce(n: nat, m: nat)
    requires m <= n < 2 * m
    ensures n % m == n - m
  {
    assert n / m == 1;
  }

  /** The object, with the byte copies of the source written out. */
  class Channel {
    var buf: array<Byte>
    var iput: nat
    var iget: nat
    var capacity: nat
    var elemSize: nat
    var size: nat

    ghost function View(): Ring
      reads this, buf
    {
      Ring(buf[..], iput, iget, capacity, elemSize, size)
    }

    constructor (elemSize: nat, capacity: nat)
      ensures View() == Ring(buf[..], 0, 0, capacity, elemSize, 0)
      ensures Valid(View()) && Contents(View()) == [] && fresh(buf)
    {
      buf := new Byte[elemSize * capacity];
      this.elemSize, this.capacity := elemSize, capacity;
      iput, iget, size := 0, 0, 0;
    }

    /** `mc_put` from the lock, or a wake-up, to the unlock or the wait. */
    method Put(item: array<Byte>) returns (wait: bool)
      requires Valid(View()) && item.Length == elemSize && item != buf
      modifies this, buf
      ensures wait <==> old(size) == old(capacity)
      ensures buf == old(buf) && View() == if wait then old(View()) else PutSpec(old(View()), item[..])
      ensures Valid(View()) && Contents(View()) == old(Contents(View())) + if wait then [] else [item[..]]
    {
      wait := size == capacity;
      if !wait {
        PutItem(item);
      }
    }

    /** `mc_get` likewise. */
    method Get(item: array<Byte>) returns (wait: bool)
      requires Valid(View()) && item.Length == elemSize && item != buf
      modifies this, item
      ensures wait <==> old(size) == 0
      ensures buf == old(buf) && View() == if wait then old(View()) else GetSpec(old(View()))
      ensures if wait then item[..] == old(item[..]) else [item[..]] + Contents(View()) == old(Contents(View()))
      ensures Valid(View())
    {
      wait := size == 0;
      if !wait {
        GetItem(item);
      }
    }

    /** `mc_put` once there is space. */
    method PutItem(item: array<Byte>)
      requires Valid(View()) && size < capacity && item.Length == elemSize && item != buf
      modifies this, buf
      ensures buf == old(buf) && View() == PutSpec(old(View()), item[..])
      ensures Valid(View()) && Contents(View()) == old(Contents(View())) + [item[..]]
    {
      PutAppends(View(), item[..]);
      SlotFits(iput, capacity, elemSize);
      ghost var before := buf[..];
      var base := iput * elemSize;
      for k := 0 to elemSize
        modifies buf
        invariant forall j :: 0 <= j < k ==> buf[base + j] == item[j]
        invariant forall j :: 0 <= j < buf.Length && !(base <= j < base + k) ==> buf[j] == before[j]
      {
        buf[base + k] := item[k];
      }
      assert buf[..] == before[..base] + item[..] + before[base + elemSize..];
      iput := iput + 1;
      if iput == capacity {
        iput := 0;
      }
      size := size + 1;
    }

    /** `mc_get` once there is an item. */
    method GetItem(item: array<Byte>)
      requires Valid(View()) && 0 < size && item.Length == elemSize && item != buf
      modifies this, item
      ensures buf == old(buf) && View() == GetSpec(old(View()))
      ensures Valid(View()) && [item[..]] + Contents(View()) == old(Contents(View()))
    {
      GetRemovesFirst(View());
      SlotFits(iget, capacity, elemSize);
      var base := iget * elemSize;
      for k := 0 to elemSize
        modifies item
        invariant forall j :: 0 <= j < k ==> item[j] == buf[base + j]
      {
        item[k] := buf[base + k];
      }
      assert item[..] == buf[base..base + elemSize];
      iget := iget + 1;
      if iget == capacity {
        iget := 0;
      }
      size := size - 1;
    }
  }
}
