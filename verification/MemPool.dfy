/** The pool of send buffers: items lent by size, and kept for reuse when they come back. */
module MemPools {
  import opened Bytes
  import opened ReceiveBuffers

  const K4: int := 1024 * 4
  const K16: int := 1024 * 16
  const K64: int := 1024 * 64
  const K128: int := 1024 * 128
  const SIZE_MAX: int := 1024 * 512
  const COUNT_MAX: int := 1000
  const PACKET_MAX: int := 1024 * 1024

  class MemItem {
    var m_pData: array?<byte>
    var m_nLen: int
    var m_nCapacity: int

    ghost predicate Valid()
      reads this
    {
      && 0 <= m_nLen <= m_nCapacity
      && (if m_nCapacity == 0 then m_pData == null else m_pData != null && m_pData.Length == m_nCapacity)
    }

    ghost function Contents(): seq<byte>
      reads this, m_pData
      requires Valid()
    {
      if m_pData == null then [] else m_pData[..m_nLen]
    }

    constructor (capacity: int)
      requires 0 <= capacity
      ensures Valid() && m_nCapacity == capacity && m_nLen == 0 && (capacity > 0 ==> fresh(m_pData))
    {
      m_nCapacity := capacity;
      m_nLen := 0;
      m_pData := null;
      if capacity != 0 { m_pData := new byte[capacity]; }
    }

    /** `MemItem::assign` */
    method Assign(data: array?<byte>, len: int)
      requires Valid() && (data != null ==> len <= data.Length && data != m_pData)
      modifies this, m_pData
      ensures Valid() && (m_pData == old(m_pData) || fresh(m_pData))
      ensures if 0 < len <= 0x100000 && data != null then
                Contents() == data[..len] && m_nCapacity == if len > old(m_nCapacity) then len else old(m_nCapacity)
              else Contents() == old(Contents()) && m_nCapacity == old(m_nCapacity)
      ensures data != null ==> data[..] == old(data[..])
    {
      if len <= 0 || data == null { return; }
      if len > PACKET_MAX { return; }
      if len > m_nCapacity {
        m_pData := new byte[len];
        m_nCapacity := len;
      }
      m_nLen := len;
      CopyBytes(m_pData, 0, data, 0, len);
      assert m_pData[..len] == data[..len];
    }

    /** `MemItem::clear` */
    method Clear()
      requires Valid()
      modifies this`m_nLen
      ensures Valid() && Contents() == [] && m_nLen == 0
    {
      m_nLen := 0;
    }
  }

  /** A vector after `pop_back`. */
  function Popped(pool: seq<MemItem>): seq<MemItem> { if pool == [] then [] else pool[..|pool| - 1] }

  /** Where every item is: the vectors, and those lent. */
  datatype Places = Places(p4: seq<MemItem>, p16: seq<MemItem>, p64: seq<MemItem>, p128: seq<MemItem>, lent: set<MemItem>)

  ghost function Everything(p: Places): multiset<MemItem> {
    multiset(p.p4) + multiset(p.p16) + multiset(p.p64) + multiset(p.p128) + multiset(p.lent)
  }

  /** Every item kept is in exactly one place, once. */
  ghost predicate Accounted(p: Places, kept: set<MemItem>) { Everything(p) == multiset(kept) }

  /** The same but for one item, which is in no place. */
  ghost predicate Missing(p: Places, kept: set<MemItem>, item: MemItem) {
    Everything(p) + multiset{item} == multiset(kept)
  }

  ghost function Pop(p: Places, size: int): Places {
    if size <= K4 then p.(p4 := Popped(p.p4))
    else if size <= K16 then p.(p16 := Popped(p.p16))
    else if size <= K64 then p.(p64 := Popped(p.p64))
    else if size <= K128 then p.(p128 := Popped(p.p128))
    else p
  }

  /** The vector that serves a size. */
  ghost function PoolFor(p: Places, size: int): seq<MemItem> {
    if size <= K4 then p.p4
    else if size <= K16 then p.p16
    else if size <= K64 then p.p64
    else if size <= K128 then p.p128
    else []
  }

  /** The capacity of what a request of `size` is answered with. */
  ghost function Served(p: Places, size: int): int
    reads PoolFor(p, size)
  {
    var pool := PoolFor(p, size);
    if pool == [] then ClassSize(size) else pool[|pool| - 1].m_nCapacity
  }

  /** The next item of a vector, if any, has the capacity of its class. */
  ghost predicate Reaches(pool: seq<MemItem>, capacity: int)
    reads pool
  {
    pool == [] || pool[|pool| - 1].m_nCapacity >= capacity
  }

  /** Every request up to 512 KiB is answered with enough if and only if the next items of the two middle
      vectors have not been too small for them all along. */
  lemma ServedExact(p: Places, kept: set<MemItem>)
    requires Sorted(p, kept)
    ensures (forall size :: size <= SIZE_MAX ==> Served(p, size) >= size) <==> Reaches(p.p16, K16) && Reaches(p.p64, K64)
  {
    if Reaches(p.p16, K16) && Reaches(p.p64, K64) {
      forall size | size <= SIZE_MAX ensures Served(p, size) >= size {}
    } else {
      assert Served(p, K16) < K16 || Served(p, K64) < K64;
    }
  }

  /** The items: those not lent are cleared, and no two share storage. */
  ghost predicate Sound(kept: set<MemItem>, lent: set<MemItem>)
    reads kept
  {
    && (forall x :: x in kept ==> x.Valid() && x.m_nCapacity >= K4)
    && (forall x :: x in kept && x !in lent ==> x.m_nLen == 0)
    && (forall x, y :: x in kept && y in kept && x != y ==> x.m_pData != y.m_pData)
  }

  /** Each vector holds items of its class. */
  ghost predicate Sorted(p: Places, kept: set<MemItem>)
    reads kept
  {
    && (forall x :: x in p.p4 ==> x in kept && x.m_nCapacity == K4)
    && (forall x :: x in p.p16 ==> x in kept && K4 < x.m_nCapacity <= K16)
    && (forall x :: x in p.p64 ==> x in kept && K16 < x.m_nCapacity <= K128)
    && (forall x :: x in p.p128 ==> x in kept && x.m_nCapacity == K128)
    && |p.p4| <= COUNT_MAX + 1 && |p.p16| <= COUNT_MAX + 1
  }

  /** No item is between the sizes of two classes. */
  ghost predicate Sized(kept: set<MemItem>)
    reads kept
  {
    forall x :: x in kept ==> x.m_nCapacity == K4 || x.m_nCapacity == K16 || x.m_nCapacity >= K64
  }

  lemma SoundNew(p: Places, kept: set<MemItem>, item: MemItem)
    requires Sound(kept, p.lent) && Sorted(p, kept) && item.Valid() && item.m_nCapacity >= K4 && item.m_nLen == 0
    requires forall x :: x in kept ==> x.m_pData != item.m_pData
    ensures Sound(kept + {item}, p.lent) && Sorted(p, kept + {item})
    ensures Sized(kept) && ClassSize(item.m_nCapacity) == item.m_nCapacity ==> Sized(kept + {item})
  {}

  lemma SortedPop(p: Places, kept: set<MemItem>, size: int)
    requires Sorted(p, kept)
    ensures Sorted(Pop(p, size), kept)
  {}

  /** An item from the vector that serves a size. */
  lemma PopFits(p: Places, kept: set<MemItem>, size: int)
    requires Sorted(p, kept) && PoolFor(p, size) != []
    ensures var pool := PoolFor(p, size);
            var item := pool[|pool| - 1];
            item in kept && (Sized(kept) || size <= K4 || size > K64 ==> item.m_nCapacity >= size)
  {}

  lemma PopMissing(p: Places, kept: set<MemItem>, size: int)
    requires Accounted(p, kept) && PoolFor(p, size) != []
    ensures var pool := PoolFor(p, size); Missing(Pop(p, size), kept, pool[|pool| - 1])
  {
    var pool := PoolFor(p, size);
    assert pool == pool[..|pool| - 1] + [pool[|pool| - 1]];
    assert multiset(pool) == multiset(Popped(pool)) + multiset{pool[|pool| - 1]};
  }

  /** That item is cleared and not lent. */
  lemma Pooled(p: Places, kept: set<MemItem>, size: int)
    requires Accounted(p, kept) && Sound(kept, p.lent) && PoolFor(p, size) != []
    ensures var pool := PoolFor(p, size);
            var item := pool[|pool| - 1];
            item in kept && item !in p.lent && item.m_nLen == 0
  {
    var pool := PoolFor(p, size);
    PopMissing(p, kept, size);
    MissingIsNowhere(Pop(p, size), kept, pool[|pool| - 1]);
  }

  lemma NewMissing(p: Places, kept: set<MemItem>, item: MemItem)
    requires Accounted(p, kept) && item !in kept
    ensures Missing(p, kept + {item}, item)
  {}

  lemma MissingIsNowhere(p: Places, kept: set<MemItem>, item: MemItem)
    requires Missing(p, kept, item)
    ensures item in kept && item !in p.lent && item !in p.p4 && item !in p.p16 && item !in p.p64 && item !in p.p128
  {
    assert multiset(kept)[item] <= 1;
    assert Everything(p)[item] == 0;
  }

  lemma MissingLent(p: Places, kept: set<MemItem>, item: MemItem)
    requires Missing(p, kept, item)
    ensures Accounted(p.(lent := p.lent + {item}), kept)
  {
    MissingIsNowhere(p, kept, item);
    assert multiset(p.lent + {item}) == multiset(p.lent) + multiset{item};
  }

  lemma LentMissing(p: Places, kept: set<MemItem>, item: MemItem)
    requires Accounted(p, kept) && item in p.lent
    ensures Missing(p.(lent := p.lent - {item}), kept, item)
  {
    assert multiset(p.lent) == multiset(p.lent - {item}) + multiset{item};
  }

  lemma MissingPushed(p: Places, kept: set<MemItem>, item: MemItem)
    requires Missing(p, kept, item)
    ensures Accounted(Push(p, item, item.m_nCapacity), kept) && item in kept
  {
    MissingIsNowhere(p, kept, item);
  }

  lemma SortedPush(p: Places, kept: set<MemItem>, item: MemItem)
    requires Sorted(p, kept) && Sound(kept, p.lent) && item in kept && Returns(p, item.m_nCapacity)
    ensures Sorted(Push(p, item, item.m_nCapacity), kept)
  {}

  lemma SoundDeleted(p: Places, kept: set<MemItem>, item: MemItem)
    requires Missing(p, kept, item) && Sound(kept, p.lent) && Sorted(p, kept)
    ensures Sound(kept - {item}, p.lent) && Sorted(p, kept - {item}) && (Sized(kept) ==> Sized(kept - {item}))
  {
    MissingIsNowhere(p, kept, item);
  }

  ghost function Push(p: Places, item: MemItem, capacity: int): Places {
    if capacity <= K4 then p.(p4 := p.p4 + [item])
    else if capacity <= K16 then p.(p16 := p.p16 + [item])
    else p.(p64 := p.p64 + [item])
  }

  /** An item given back is kept: up to 16 KiB while its vector has room, above that up to 128 KiB. The vector
      for 128 KiB is asked for room, but it is the one for 64 KiB that takes the item. */
  ghost predicate Returns(p: Places, capacity: int) {
    if capacity <= K4 then |p.p4| <= 1000
    else if capacity <= K16 then |p.p16| <= 1000
    else if capacity <= K64 then |p.p64| <= 1000
    else capacity <= K128 && |p.p128| <= 1000
  }

  lemma MissingDeleted(p: Places, kept: set<MemItem>, item: MemItem)
    requires Missing(p, kept, item)
    ensures Accounted(p, kept - {item})
  {
    MissingIsNowhere(p, kept, item);
    assert multiset(kept) == multiset(kept - {item}) + multiset{item};
    assert Everything(p) == multiset(kept) - multiset{item} == multiset(kept - {item});
  }

  lemma AccountedMembers(p: Places, kept: set<MemItem>)
    requires Accounted(p, kept)
    ensures forall x :: x in p.lent || x in p.p4 || x in p.p16 || x in p.p64 || x in p.p128 ==> x in kept
    ensures |kept| == |p.p4| + |p.p16| + |p.p64| + |p.p128| + |p.lent|
  {
    forall x | x in p.lent || x in p.p4 || x in p.p16 || x in p.p64 || x in p.p128 ensures x in kept {
      assert x in Everything(p);
    }
    assert |Everything(p)| == |multiset(kept)|;
  }

  lemma DeletedOne(rest: multiset<MemItem>, pool: seq<MemItem>, kept: set<MemItem>)
    requires pool != [] && rest + multiset(pool) == multiset(kept)
    ensures pool[0] in kept && rest + multiset(pool[1..]) == multiset(kept - {pool[0]})
  {
    assert pool == [pool[0]] + pool[1..];
    assert multiset(pool) == multiset{pool[0]} + multiset(pool[1..]);
    assert pool[0] in rest + multiset(pool);
    assert multiset(kept) == multiset(kept - {pool[0]}) + multiset{pool[0]};
    assert rest + multiset(pool[1..]) == multiset(kept) - multiset{pool[0]};
  }

  /** What is left of a pool once its vectors are emptied one after another. */
  lemma Emptied(p: Places)
    ensures var q4 := p.(p4 := []);
            var q16 := q4.(p16 := []);
            var q64 := q16.(p64 := []);
            Everything(q4) + multiset(p.p4) == Everything(p) && Everything(q16) + multiset(p.p16) == Everything(q4) &&
            Everything(q64) + multiset(p.p64) == Everything(q16) &&
            Everything(Places([], [], [], [], p.lent)) + multiset(p.p128) == Everything(q64)
  {}

  lemma SoundLess(kept: set<MemItem>, lent: set<MemItem>)
    requires Sound(kept, lent) && lent <= kept
    ensures Sound(lent, lent)
  {}

  lemma NoneSorted(lent: set<MemItem>)
    ensures Sorted(Places([], [], [], [], lent), lent)
  {}

  lemma OnlyLent(kept: set<MemItem>, lent: set<MemItem>)
    requires Accounted(Places([], [], [], [], lent), kept)
    ensures kept == lent
  {
    forall x ensures x in kept <==> x in lent {
      assert x in Everything(Places([], [], [], [], lent)) <==> x in multiset(kept);
    }
  }

  class MemPool {
    var m_arr4kPool: seq<MemItem>
    var m_arr16kPool: seq<MemItem>
    var m_arr64kPool: seq<MemItem>
    var m_arr128kPool: seq<MemItem>
    ghost var kept: set<MemItem>      // made and not deleted
    ghost var deleted: set<MemItem>
    ghost var lent: set<MemItem>      // handed out and not given back

    ghost function Where(): Places
      reads this
    {
      Places(m_arr4kPool, m_arr16kPool, m_arr64kPool, m_arr128kPool, lent)
    }

    ghost predicate Valid()
      reads this, kept
    {
      Accounted(Where(), kept) && kept !! deleted && Sound(kept, lent) && Sorted(Where(), kept)
    }

    constructor ()
      ensures Valid() && kept == {} && lent == {} && deleted == {}
      ensures m_arr4kPool == m_arr16kPool == m_arr64kPool == m_arr128kPool == []
    {
      m_arr4kPool, m_arr16kPool, m_arr64kPool, m_arr128kPool := [], [], [], [];
      kept, deleted, lent := {}, {}, {};
    }

    /** `MemPool::get` */
    method Get(size: int) returns (item: MemItem?)
      requires Valid()
      modifies this
      ensures Valid() && (old(Sized(kept)) ==> Sized(kept))
      ensures item == null <==> size > 0x80000
      ensures item == null ==> Where() == old(Where()) && kept == old(kept)
      ensures item != null ==>
                && item !in old(lent) && item.m_nLen == 0 && kept == old(kept) + {item}
                && Where() == Pop(old(Where()), size).(lent := old(lent) + {item})
                && (if old(PoolFor(Where(), size)) == [] then fresh(item) && fresh(item.m_pData)
                    else item == old(PoolFor(Where(), size)[|PoolFor(Where(), size)| - 1]))
                && item.m_nCapacity == old(Served(Where(), size))
                && (old(Sized(kept)) || size <= K4 || size > K64 ==> item.m_nCapacity >= size)
      ensures item != null ==> lent == old(lent) + {item} && (item in old(kept) || (fresh(item) && fresh(item.m_pData)))
      ensures deleted == old(deleted)
      ensures old(m_arr128kPool) == [] ==> m_arr128kPool == [] && (K64 < size <= K128 ==> fresh(item))
    {
      hide MemItem.Valid, Accounted, Missing, Sound, Sorted, Sized;
      if size <= K4 {
        item := BackOrNew(m_arr4kPool, size);
        m_arr4kPool := Popped(m_arr4kPool);
      } else if size <= K16 {
        item := BackOrNew(m_arr16kPool, size);
        m_arr16kPool := Popped(m_arr16kPool);
      } else if size <= K64 {
        item := BackOrNew(m_arr64kPool, size);
        m_arr64kPool := Popped(m_arr64kPool);
      } else if size <= K128 {
        item := BackOrNew(m_arr128kPool, size);
        m_arr128kPool := Popped(m_arr128kPool);
      } else if size <= SIZE_MAX {
        item := BackOrNew([], size);
      } else {
        return null;
      }
      Lend(item);
    }

    /** `item`, just taken out, is the caller's. */
    method Lend(item: MemItem)
      requires Missing(Where(), kept, item) && kept !! deleted && Sound(kept, lent) && Sorted(Where(), kept)
      modifies this`lent
      ensures Valid() && item !in old(lent) && Where() == old(Where()).(lent := old(lent) + {item})
      ensures old(Sized(kept)) ==> Sized(kept)
    {
      hide Accounted, Missing;
      MissingLent(Where(), kept, item);
      MissingIsNowhere(Where(), kept, item);
      lent := lent + {item};
    }

    /** The last item of the vector that serves `size`, or a new one if there is none. */
    method BackOrNew(pool: seq<MemItem>, size: int) returns (item: MemItem)
      requires Valid() && pool == PoolFor(Where(), size) && size <= SIZE_MAX
      modifies this`kept
      ensures Missing(Pop(Where(), size), kept, item) && kept !! deleted && kept == old(kept) + {item}
      ensures Sound(kept, lent) && Sorted(Pop(Where(), size), kept) && (old(Sized(kept)) ==> Sized(kept))
      ensures item.m_nLen == 0 && (old(Sized(kept)) || size <= K4 || size > K64 ==> item.m_nCapacity >= size)
      ensures if pool == [] then fresh(item) && fresh(item.m_pData) && item.m_nCapacity == ClassSize(size)
              else item == pool[|pool| - 1] && item in old(kept)
    {
      hide MemItem.Valid, Accounted, Missing, Sound, Sorted, Sized;
      if pool != [] {
        item := pool[|pool| - 1];
        PopMissing(Where(), kept, size);
        PopFits(Where(), kept, size);
        Pooled(Where(), kept, size);
      } else {
        item := Made(ClassSize(size));
      }
      SortedPop(Where(), kept, size);
    }

    /** `new MemItem` */
    method Made(capacity: int) returns (item: MemItem)
      requires Valid() && capacity >= K4
      modifies this`kept
      ensures Sound(kept, lent) && Sorted(Where(), kept)
      ensures old(Sized(kept)) && ClassSize(capacity) == capacity ==> Sized(kept)
      ensures fresh(item) && fresh(item.m_pData) && item.m_nCapacity == capacity && item.m_nLen == 0 && item.Valid()
      ensures kept == old(kept) + {item} && kept !! deleted && Missing(Where(), kept, item)
    {
      hide Accounted, Missing, Sorted, Sized;
      item := new MemItem(capacity);
      assert item !in kept;
      NewMissing(Where(), kept, item);
      SoundNew(Where(), kept, item);
      kept := kept + {item};
    }

    /** `item`, given back, is cleared and in no place. */
    method TakeBack(item: MemItem)
      requires Valid() && item in lent
      modifies this`lent, item`m_nLen
      ensures Missing(Where(), kept, item) && Sound(kept, lent) && Sorted(Where(), kept) && item in kept
      ensures lent == old(lent) - {item} && item.m_nLen == 0 && (old(Sized(kept)) ==> Sized(kept))
    {
      hide Accounted, Missing;
      AccountedMembers(Where(), kept);
      LentMissing(Where(), kept, item);
      item.Clear();
      lent := lent - {item};
    }

    /** `delete` */
    method Delete(item: MemItem)
      requires Missing(Where(), kept, item) && kept !! deleted && Sound(kept, lent) && Sorted(Where(), kept)
      modifies this`kept, this`deleted
      ensures Valid() && item !in old(deleted) && deleted == old(deleted) + {item} && kept == old(kept) - {item}
      ensures old(Sized(kept)) ==> Sized(kept)
    {
      hide Accounted, Missing, Sound, Sorted, Sized;
      MissingIsNowhere(Where(), kept, item);
      MissingDeleted(Where(), kept, item);
      SoundDeleted(Where(), kept, item);
      kept := kept - {item};
      deleted := deleted + {item};
    }

    /** `MemPool::free` */
    method Free(item: MemItem?)
      requires Valid() && (item != null ==> item in lent)
      modifies this, item
      ensures Valid() && (old(Sized(kept)) ==> Sized(kept))
      ensures item != null ==> item.m_nLen == 0 && item.m_nCapacity == old(item.m_nCapacity) && item.m_pData == old(item.m_pData)
      ensures item == null ==> Where() == old(Where()) && kept == old(kept) && deleted == old(deleted)
      ensures item != null ==>
                var p := old(Where()).(lent := old(lent) - {item});
                if Returns(p, item.m_nCapacity) then
                  Where() == Push(p, item, item.m_nCapacity) && kept == old(kept) && deleted == old(deleted)
                else Where() == p && kept == old(kept) - {item} && deleted == old(deleted) + {item}
      ensures old(m_arr128kPool) == [] ==>
                m_arr128kPool == [] &&
                (item != null && old(|m_arr64kPool|) <= 1001 ==>
                   (|m_arr64kPool| <= 1001 <==> !(K64 < item.m_nCapacity <= K128 && old(|m_arr64kPool|) == 1001)))
    {
      hide MemItem.Valid, Accounted, Missing, Sound, Sorted, Sized;
      if item == null { return; }
      TakeBack(item);
      ghost var p := Where();
      MissingPushed(p, kept, item);
      if Returns(p, item.m_nCapacity) { SortedPush(p, kept, item); }
      if item.m_nCapacity <= K4 {
        if |m_arr4kPool| > COUNT_MAX { Delete(item); return; }
        m_arr4kPool := m_arr4kPool + [item];
      } else if item.m_nCapacity <= K16 {
        if |m_arr16kPool| > COUNT_MAX { Delete(item); return; }
        m_arr16kPool := m_arr16kPool + [item];
      } else if item.m_nCapacity <= K64 {
        if |m_arr64kPool| > COUNT_MAX { Delete(item); return; }
        m_arr64kPool := m_arr64kPool + [item];
      } else if item.m_nCapacity <= K128 {
        if |m_arr128kPool| > COUNT_MAX { Delete(item); return; }
        m_arr64kPool := m_arr64kPool + [item];
      } else {
        Delete(item);
      }
    }

    /** One of the loops of `MemPool::reset`: each item of the vector is deleted, none twice. */
    method DeleteEach(pool: seq<MemItem>, ghost rest: multiset<MemItem>)
      requires rest + multiset(pool) == multiset(kept) && kept !! deleted && Sound(lent, lent)
      modifies this`kept, this`deleted
      ensures Sound(lent, lent)
      ensures rest == multiset(kept) && kept !! deleted
      ensures kept <= old(kept) && deleted == old(deleted) + (old(kept) - kept)
    {
      hide Sound;
      for i := 0 to |pool|
        invariant Sound(lent, lent)
        invariant rest + multiset(pool[i..]) == multiset(kept) && kept !! deleted
        invariant kept <= old(kept) && deleted == old(deleted) + (old(kept) - kept)
      {
        DeletedOne(rest, pool[i..], kept);
        assert pool[i..][1..] == pool[i + 1..];
        assert pool[i] in kept && pool[i] !in deleted;
        kept := kept - {pool[i]};
        deleted := deleted + {pool[i]};
      }
      assert pool[|pool|..] == [];
    }

    /** `MemPool::reset` */
    method Reset()
      requires Valid()
      modifies this
      ensures Valid() && Where() == Places([], [], [], [], old(lent)) && kept == lent
      ensures deleted == old(deleted) + (old(kept) - lent)
    {
      hide MemItem.Valid, Everything, Sound, Sized, Sorted;
      ghost var p, all, gone := Where(), kept, deleted;
      AccountedMembers(p, kept);
      SoundLess(kept, lent);
      Emptied(p);
      DeleteEach(m_arr4kPool, Everything(p.(p4 := [])));
      m_arr4kPool := [];
      assert Sound(lent, lent);
      DeleteEach(m_arr16kPool, Everything(p.(p4 := [], p16 := [])));
      m_arr16kPool := [];
      assert Sound(lent, lent);
      assert deleted == gone + (all - kept);
      DeleteEach(m_arr64kPool, Everything(p.(p4 := [], p16 := [], p64 := [])));
      m_arr64kPool := [];
      assert Sound(lent, lent);
      assert deleted == gone + (all - kept);
      DeleteEach(m_arr128kPool, Everything(Places([], [], [], [], lent)));
      m_arr128kPool := [];
      assert Sound(lent, lent);
      assert deleted == gone + (all - kept);
      OnlyLent(kept, lent);
      NoneSorted(lent);
    }
  }

  const CLASSES: set<int> := {0x1000, 0x4000, 0x10000, 0x20000}

  /** The capacity of an item made for a size: the least class it fits, or above them the size itself. */
  function ClassSize(size: int): (r: int)
    ensures size <= r && (size > 0x20000 ==> r == size)
    ensures size <= 0x20000 ==> r in CLASSES && forall c :: c in CLASSES && size <= c ==> r <= c
  {
    if size <= K4 then K4 else if size <= K16 then K16 else if size <= K64 then K64 else if size <= K128 then K128 else size
  }

  /** Bytes put into an item that is lent: the pool is unharmed, and so are the bytes in every other item. */
  method Fill(pool: MemPool, item: MemItem, data: array<byte>, len: int)
    requires pool.Valid() && item in pool.lent && item in pool.kept && 0 <= len <= data.Length && len <= PACKET_MAX
    requires forall x :: x in pool.kept ==> x.m_pData != data
    modifies item, item.m_pData
    ensures pool.Valid() && (item.m_pData == old(item.m_pData) || fresh(item.m_pData))
    ensures old(Sized(pool.kept)) ==>
              (Sized(pool.kept) <==> len <= old(item.m_nCapacity) || len == K16 || len >= K64)
    ensures item.Valid() && item.m_nCapacity == if len > old(item.m_nCapacity) then len else old(item.m_nCapacity)
    ensures len > 0 ==> item.Contents() == data[..len]
    ensures len == 0 ==> item.Contents() == old(item.Contents())
    ensures forall x :: x in pool.kept && x != item ==> x.Valid() && x.Contents() == old(x.Contents())
  {
    hide Accounted, Missing;
    AccountedMembers(pool.Where(), pool.kept);
    LentMissing(pool.Where(), pool.kept, item);
    MissingIsNowhere(pool.Where().(lent := pool.lent - {item}), pool.kept, item);
    item.Assign(data, len);
  }

  /** How the links use the pool to send `len` bytes: an item of that size, the bytes put into it. */
  method SendBuffer(pool: MemPool, data: array<byte>, len: int) returns (item: MemItem?)
    requires pool.Valid() && 0 <= len <= data.Length && forall x :: x in pool.kept ==> x.m_pData != data
    modifies pool, pool.kept, set x | x in pool.kept :: x.m_pData
    ensures pool.Valid() && (old(Sized(pool.kept)) ==> Sized(pool.kept))
    ensures item == null <==> len > SIZE_MAX
    ensures item == null ==> pool.lent == old(pool.lent)
    ensures item != null ==>
              item !in old(pool.lent) && pool.lent == old(pool.lent) + {item} && item.Valid() &&
              item.Contents() == old(data[..len])
    ensures forall x :: x in old(pool.lent) ==> x.Valid() && x.Contents() == old(x.Contents())
  {
    hide Accounted, Missing, Everything, Sorted, Sized, PoolFor, ClassSize, Pop;
    AccountedMembers(pool.Where(), pool.kept);
    item := pool.Get(len);
    if item == null { return; }
    assert item.Contents() == [];
    Fill(pool, item, data, len);
  }

  // ---- what the pool does not promise

  /** An item outgrown to a size between two classes: if its vector takes it back, the very next request of
      that class is answered with it, and it is too small. */
  method Outgrown(pool: MemPool, item: MemItem, data: array<byte>, len: int) returns (asked: int, next: MemItem)
    requires pool.Valid() && Sized(pool.kept) && item in pool.lent && item in pool.kept && 0 <= len <= data.Length
    requires forall x :: x in pool.kept ==> x.m_pData != data
    requires item.m_nCapacity < len < K64 && len != K16
    modifies pool, item, item.m_pData
    ensures pool.Valid() && asked == (if len < K16 then K16 else K64)
    ensures old(Returns(pool.Where(), len)) ==> next == item && next.m_nCapacity == len < asked
    ensures !old(Returns(pool.Where(), len)) ==> next != item && next.m_nCapacity >= asked
  {
    hide Accounted, Missing, Sorted, Sound, MemItem.Valid, Everything;
    Fill(pool, item, data, len);
    pool.Free(item);
    asked := ClassSize(len);
    next := pool.Get(asked);
  }

  /** An item made larger than its class comes back to serve a class it is too small for. */
  method GrownItem() returns (asked: int, got: int)
    ensures asked == K16 && got == 5000
  {
    hide Accounted, Missing, Sorted, Sound, Sized, MemItem.Valid, Everything;
    var pool := new MemPool();
    var data := new byte[5000];
    var item := pool.Get(K4);
    Fill(pool, item, data, 5000);
    pool.Free(item);
    asked := K16;
    var next := pool.Get(asked);
    got := next.m_nCapacity;
  }

  /** The vector for 64 KiB items has no bound: it takes every 128 KiB item that comes back. */
  method Hoard(n: nat) returns (kept: nat)
    ensures kept == n
  {
    hide Accounted, Missing, Sorted, Sound, Sized, MemItem.Valid, Everything;
    var pool := new MemPool();
    var items: seq<MemItem> := [];
    for i := 0 to n
      invariant pool.Valid() && fresh(pool) && |items| == i
      invariant pool.m_arr64kPool == [] && pool.m_arr128kPool == []
      invariant forall j :: 0 <= j < i ==> fresh(items[j]) && items[j] in pool.lent && items[j].m_nCapacity == K128
      invariant forall j, k :: 0 <= j < k < i ==> items[j] != items[k]
    {
      var item := pool.Get(K128);
      items := items + [item];
    }
    for i := 0 to n
      invariant pool.Valid() && fresh(pool) && |items| == n
      invariant |pool.m_arr64kPool| == i && pool.m_arr128kPool == []
      invariant forall j :: i <= j < n ==> fresh(items[j]) && items[j] in pool.lent && items[j].m_nCapacity == K128
      invariant forall j, k :: 0 <= j < k < n ==> items[j] != items[k]
    {
      pool.Free(items[i]);
    }
    kept := |pool.m_arr64kPool|;
  }
}
