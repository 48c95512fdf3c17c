/** The class IDMap of base/id_map.h and its iterator. */
module IdMap {
  import opened IdMapModel
  import IdMapRuns

  const INT32_MAX := 0x7fff_ffff

  class IDMap {
    const own: bool
    var iterationDepth: nat
    var removedIds: set<int>
    var nextId: int
    /** The hash table in bucket order. */
    var data: seq<Entry>
    var checkOnNullData: bool
    /** The pointers given to delete, in order. */
    ghost var released: seq<nat>

    ghost function Value(): State
      reads this
    {
      State(own, data, removedIds, iterationDepth, released)
    }

    constructor (own: bool)
      ensures Value() == State(own, [], {}, 0, []) && nextId == 1 && !checkOnNullData
    {
      this.own := own;
      iterationDepth, removedIds, nextId, data, checkOnNullData := 0, {}, 1, [], false;
      released := [];
    }

    /** The bucket that the new entry lands in is up to the hash table. */
    method Add(ptr: nat, bucket: nat) returns (id: int)
      requires Value().Valid() && bucket <= |data|
      requires !checkOnNullData || ptr != 0
      requires nextId !in Ids(data) && nextId < INT32_MAX
      modifies this
      ensures id == old(nextId) && nextId == id + 1 && checkOnNullData == old(checkOnNullData)
      ensures Value() == old(Value()).Add(Entry(id, ptr), bucket) && Value().Valid()
      ensures old(forall k | k in Ids(data) :: k < nextId) ==> forall k | k in Ids(data) :: k < nextId
    {
      id := nextId;
      IdMapRuns.AddValid(Value(), Entry(id, ptr), bucket);
      data := data[..bucket] + [Entry(id, ptr)] + data[bucket..];
      nextId := nextId + 1;
      InsertedIds(old(data), Entry(id, ptr), bucket);
    }

    method AddWithID(ptr: nat, id: int, bucket: nat)
      requires Value().Valid() && bucket <= |data|
      requires !checkOnNullData || ptr != 0
      requires id !in Ids(data)
      modifies this
      ensures nextId == old(nextId) && checkOnNullData == old(checkOnNullData)
      ensures Value() == old(Value()).Add(Entry(id, ptr), bucket) && Value().Valid()
    {
      IdMapRuns.AddValid(Value(), Entry(id, ptr), bucket);
      data := data[..bucket] + [Entry(id, ptr)] + data[bucket..];
    }

    method Remove(id: int)
      modifies this`data, this`removedIds, this`released
      ensures Value() == old(Value()).Remove(id)
    {
      var i := Find(data, id);
      if i == |data| {
        return;
      }
      if iterationDepth == 0 {
        Release(data[i].ptr);
        data := data[..i] + data[i + 1..];
      } else {
        removedIds := removedIds + {id};
      }
    }

    /** Releaser::release. */
    method Release(ptr: nat)
      modifies this`released
      ensures released == old(released) + if own then [ptr] else []
    {
      if own {
        released := released + [ptr];
      }
    }

    /** Releaser::release_all, which does nothing at all with external pointers. */
    method ReleaseAll()
      modifies this`released, this`data
      ensures Value() == old(Value()).Destroyed()
    {
      if own {
        var i := 0;
        while i < |data|
          invariant 0 <= i <= |data| && data == old(data)
          invariant released + Pointers(data[i..]) == old(released) + Pointers(old(data))
        {
          assert data[i..][1..] == data[i + 1..];
          assert released + ([data[i].ptr] + Pointers(data[i + 1..]))
              == released + [data[i].ptr] + Pointers(data[i + 1..]);
          released := released + [data[i].ptr];
          i := i + 1;
        }
        data := [];
      }
    }

    method Clear()
      modifies this`data, this`removedIds, this`released
      ensures Value() == old(Value()).Clear()
    {
      if iterationDepth == 0 {
        ReleaseAll();
      } else {
        var i := 0;
        while i < |data|
          invariant 0 <= i <= |data|
          invariant data == old(data) && iterationDepth == old(iterationDepth) && released == old(released)
          invariant removedIds == old(removedIds) + Ids(data[..i])
        {
          IdsSnoc(data, i);
          removedIds := removedIds + {data[i].id};
          i := i + 1;
        }
        assert data[..i] == data;
      }
    }

    method Size() returns (n: int)
      requires Value().Valid()
      ensures n == |Value().Live()|
    {
      SizeIsLive(Value());
      n := |data| - |removedIds|;
    }

    method IsEmpty() returns (empty: bool)
      requires Value().Valid()
      ensures empty <==> Value().Live() == []
    {
      var n := Size();
      empty := n == 0;
    }

    method Lookup(id: int) returns (ptr: nat)
      ensures ptr == IdMapRuns.LookupIn(data, id)
    {
      var i := Find(data, id);
      ptr := if i == |data| then 0 else data[i].ptr;
    }

    /** Takes the ids out of the set in ascending order. */
    method Compact()
      requires iterationDepth == 0
      modifies this`data, this`removedIds, this`released
      ensures Value() == old(Value()).Compact()
    {
      var todo := removedIds;
      while todo != {}
        invariant iterationDepth == 0 && removedIds == old(removedIds)
        invariant Value().RemoveAll(Ascending(todo)) == old(Value()).RemoveAll(Ascending(old(removedIds)))
        decreases todo
      {
        HasLeast(todo);
        var id :| id in todo && forall x | x in todo :: id <= x;
        assert id == Least(todo);
        assert Ascending(todo)[0] == id && Ascending(todo)[1..] == Ascending(todo - {id});
        Remove(id);
        todo := todo - {id};
      }
      assert Ascending({}) == [];
      removedIds := {};
    }

    /** ~IDMap. */
    method Destroy()
      modifies this`data, this`released
      ensures Value() == old(Value()).Destroyed()
    {
      ReleaseAll();
    }
  }

  lemma IdsSnoc(data: seq<Entry>, i: nat)
    requires i < |data|
    ensures Ids(data[..i + 1]) == Ids(data[..i]) + {data[i].id}
  {}

  lemma InsertedIds(data: seq<Entry>, e: Entry, at: nat)
    requires at <= |data|
    ensures Ids(data[..at] + [e] + data[at..]) <= Ids(data) + {e.id}
  {}

  /** Keeps the map from erasing entries as long as it lives. */
  class Iterator {
    const map_: IDMap
    /** iter_, as a position in bucket order. */
    var iter: nat

    constructor (m: IDMap)
      modifies m`iterationDepth
      ensures map_ == m && m.Value() == old(m.Value()).Enter()
      ensures iter == m.Value().Skip(0)
    {
      map_ := m;
      iter := 0;
      new;
      Init();
    }

    constructor Copy(other: Iterator)
      requires other.iter <= |other.map_.data|
      modifies other.map_`iterationDepth
      ensures map_ == other.map_ && map_.Value() == old(other.map_.Value()).Enter()
      ensures iter == map_.Value().Skip(old(other.iter))
    {
      map_ := other.map_;
      iter := other.iter;
      new;
      Init();
    }

    method Init()
      requires iter <= |map_.data|
      modifies map_`iterationDepth, this`iter
      ensures map_.Value() == old(map_.Value()).Enter()
      ensures iter == map_.Value().Skip(old(iter))
    {
      map_.iterationDepth := map_.iterationDepth + 1;
      SkipRemovedEntries();
    }

    method SkipRemovedEntries()
      requires iter <= |map_.data|
      modifies this`iter
      ensures iter == map_.Value().Skip(old(iter))
    {
      while iter < |map_.data| && map_.data[iter].id in map_.removedIds
        invariant iter <= |map_.data|
        invariant map_.Value().Skip(iter) == map_.Value().Skip(old(iter))
        decreases |map_.data| - iter
      {
        iter := iter + 1;
      }
    }

    method IsAtEnd() returns (end: bool)
      ensures end <==> iter == |map_.data|
    {
      end := iter == |map_.data|;
    }

    method GetCurrentKey() returns (id: int)
      requires iter < |map_.data|
      ensures id == map_.data[iter].id
    {
      id := map_.data[iter].id;
    }

    method GetCurrentValue() returns (ptr: nat)
      requires iter < |map_.data|
      ensures ptr == map_.data[iter].ptr
    {
      ptr := map_.data[iter].ptr;
    }

    method Advance()
      requires iter < |map_.data|
      modifies this
      ensures iter == map_.Value().Skip(old(iter) + 1)
    {
      iter := iter + 1;
      SkipRemovedEntries();
    }

    /** ~Iterator: the last one to go commits the deferred removals. */
    method Destroy()
      requires map_.iterationDepth > 0
      modifies map_`iterationDepth, map_`data, map_`removedIds, map_`released
      ensures map_.Value() == old(map_.Value()).Leave()
    {
      map_.iterationDepth := map_.iterationDepth - 1;
      if map_.iterationDepth == 0 {
        map_.Compact();
      }
    }
  }
}
