/** What base/id_map.h does to its fields, as functions on values. */
module IdMapModel {

  /** An id and the pointer stored for it; NULL is 0. */
  datatype Entry = Entry(id: int, ptr: nat)

  predicate DistinctIds(data: seq<Entry>) {
    forall i, j :: 0 <= i < j < |data| ==> data[i].id != data[j].id
  }

  function Ids(data: seq<Entry>): set<int> {
    set i | 0 <= i < |data| :: data[i].id
  }

  function Pointers(data: seq<Entry>): (ptrs: seq<nat>)
    ensures |ptrs| == |data|
  {
    if data == [] then [] else [data[0].ptr] + Pointers(data[1..])
  }

  /** The position of an id in the table, or the end. */
  function Find(data: seq<Entry>, id: int): (i: nat)
    ensures i <= |data|
    ensures forall j :: 0 <= j < i ==> data[j].id != id
    ensures i < |data| ==> data[i].id == id
  {
    if data == [] || data[0].id == id then 0 else 1 + Find(data[1..], id)
  }

  function Without(data: seq<Entry>, i: nat): seq<Entry>
    requires i < |data|
  {
    data[..i] + data[i + 1..]
  }

  /**
   * data_ in bucket order, removed_ids_, iteration_depth_, and the pointers
   * deleted so far; own is the ownership parameter of the template.
   */
  datatype State = State(own: bool, data: seq<Entry>, removed: set<int>, depth: nat, released: seq<nat>) {

    predicate Valid() {
      DistinctIds(data) && removed <= Ids(data) && (depth == 0 ==> removed == {})
    }

    /** The entries that Remove and Clear have not touched, in bucket order. */
    function Live(): seq<Entry> { Kept(data, removed) }

    /** A new entry lands in any bucket. */
    function Add(entry: Entry, at: nat): State
      requires at <= |data|
    {
      this.(data := data[..at] + [entry] + data[at..])
    }

    function Remove(id: int): State {
      var i := Find(data, id);
      if i == |data| then this
      else if depth == 0 then
        this.(data := Without(data, i), released := released + if own then [data[i].ptr] else [])
      else
        this.(removed := removed + {id})
    }

    /** With external pointers and no iterator this does nothing. */
    function Clear(): State {
      if depth > 0 then this.(removed := removed + Ids(data))
      else if own then this.(data := [], released := released + Pointers(data))
      else this
    }

    /** Where an iterator at `from` ends up: the next entry that is not removed. */
    function Skip(from: nat): (i: nat)
      requires from <= |data|
      ensures from <= i <= |data|
      ensures forall j :: from <= j < i ==> data[j].id in removed
      ensures i < |data| ==> data[i].id !in removed
      decreases |data| - from
    {
      if from == |data| || data[from].id !in removed then from else Skip(from + 1)
    }

    function Enter(): State { this.(depth := depth + 1) }

    function RemoveAll(ids: seq<int>): State
      decreases |ids|
    {
      if ids == [] then this else Remove(ids[0]).RemoveAll(ids[1..])
    }

    /** Compact: std::set hands the ids out in ascending order. */
    ghost function Compact(): State {
      RemoveAll(Ascending(removed)).(removed := {})
    }

    ghost function Leave(): State
      requires depth > 0
    {
      if depth == 1 then this.(depth := 0).Compact() else this.(depth := depth - 1)
    }

    /** ~IDMap. */
    function Destroyed(): State {
      if own then this.(data := [], released := released + Pointers(data)) else this
    }
  }

  /** The entries whose id is not in gone. */
  function Kept(data: seq<Entry>, gone: set<int>): seq<Entry> {
    if data == [] then [] else (if data[0].id in gone then [] else [data[0]]) + Kept(data[1..], gone)
  }

  lemma HasLeast(s: set<int>)
    requires s != {}
    ensures exists m :: m in s && forall x | x in s :: m <= x
  {
    if forall x :: x !in s {
      assert false;
    }
    var y: int :| y in s;
    var rest := s - {y};
    if rest == {} {
      assert y in s && forall x | x in s :: y <= x by {
        assert forall x | x in s :: x == y || x in rest;
      }
    } else {
      HasLeast(rest);
      var l :| l in rest && forall x | x in rest :: l <= x;
      var least := if l < y then l else y;
      assert least in s && forall x | x in s :: least <= x by {
        assert forall x | x in s :: x == y || x in rest;
      }
    }
  }

  ghost function Least(s: set<int>): (m: int)
    requires s != {}
    ensures m in s && forall x | x in s :: m <= x
  {
    HasLeast(s);
    var m :| m in s && forall x | x in s :: m <= x;
    m
  }

  ghost function Ascending(s: set<int>): seq<int> {
    if s == {} then [] else [Least(s)] + Ascending(s - {Least(s)})
  }

  // ---------------------------------------------------------------------
  // size()

  lemma IdsCons(data: seq<Entry>)
    requires data != []
    ensures Ids(data) == {data[0].id} + Ids(data[1..])
    ensures DistinctIds(data) ==> data[0].id !in Ids(data[1..]) && DistinctIds(data[1..])
  {}

  lemma {:induction false} KeptCount(data: seq<Entry>, gone: set<int>)
    requires DistinctIds(data) && gone <= Ids(data)
    ensures |Kept(data, gone)| == |data| - |gone|
  {
    hide Ids, DistinctIds;
    if data == [] {
      NoIds();
    } else {
      IdsCons(data);
      KeptCount(data[1..], gone - {data[0].id});
      KeptIgnores(data[1..], gone, data[0].id);
    }
  }

  lemma NoDistinct()
    ensures DistinctIds([])
  {}

  lemma NoIds()
    ensures Ids([]) == {}
  {}

  lemma {:induction false} KeptIgnores(data: seq<Entry>, gone: set<int>, id: int)
    requires id !in Ids(data)
    ensures Kept(data, gone - {id}) == Kept(data, gone)
  {
    if data == [] {
    } else {
      assert data[0].id in Ids(data);
      IdsCons(data);
      KeptIgnores(data[1..], gone, id);
    }
  }

  /** size(), the difference of the two sizes, is the number of live entries. */
  lemma SizeIsLive(s: State)
    requires s.Valid()
    ensures |s.data| - |s.removed| == |s.Live()|
  {
    KeptCount(s.data, s.removed);
  }

  // ---------------------------------------------------------------------
  // Compact

  lemma KeptCons(e: Entry, rest: seq<Entry>, gone: set<int>)
    ensures Kept([e] + rest, gone) == if e.id in gone then Kept(rest, gone) else [e] + Kept(rest, gone)
  {}

  lemma FindCons(data: seq<Entry>, id: int)
    requires data != []
    ensures Find(data, id) == if data[0].id == id then 0 else 1 + Find(data[1..], id)
    ensures data[0].id == id ==> Without(data, Find(data, id)) == data[1..]
    ensures data[0].id != id && Find(data, id) < |data| ==>
              Without(data, Find(data, id)) == [data[0]] + Without(data[1..], Find(data[1..], id))
  {}

  lemma {:induction false} KeptWithout(data: seq<Entry>, gone: set<int>, id: int)
    requires DistinctIds(data) && Find(data, id) < |data| && id in gone
    ensures Kept(Without(data, Find(data, id)), gone - {id}) == Kept(data, gone)
  {
    hide Ids, DistinctIds, Kept, Without, Find;
    IdsCons(data);
    FindCons(data, id);
    assert [data[0]] + data[1..] == data;
    KeptCons(data[0], data[1..], gone);
    if data[0].id == id {
      KeptIgnores(data[1..], gone, id);
    } else {
      KeptWithout(data[1..], gone, id);
      KeptCons(data[0], Without(data[1..], Find(data[1..], id)), gone - {id});
    }
  }

  lemma {:induction false} IdsWithout(data: seq<Entry>, id: int)
    requires DistinctIds(data) && Find(data, id) < |data|
    ensures DistinctIds(Without(data, Find(data, id)))
    ensures Ids(Without(data, Find(data, id))) == Ids(data) - {id}
  {
    hide Ids, DistinctIds, Without, Find;
    IdsCons(data);
    FindCons(data, id);
    if data[0].id == id {
    } else {
      var rest := Without(data[1..], Find(data[1..], id));
      IdsWithout(data[1..], id);
      assert ([data[0]] + rest)[1..] == rest;
      IdsCons([data[0]] + rest);
      DistinctCons(data[0], rest);
    }
  }

  lemma FindsIds(data: seq<Entry>, id: int)
    ensures Find(data, id) < |data| <==> id in Ids(data)
  {}

  /** Removing ids one by one, without iterators, keeps just the other entries. */
  lemma {:induction false} RemoveAllKeeps(s: State, gone: set<int>)
    requires DistinctIds(s.data) && gone <= Ids(s.data) && s.depth == 0
    ensures s.RemoveAll(Ascending(gone)).data == Kept(s.data, gone)
    ensures s.RemoveAll(Ascending(gone)).depth == 0
    decreases gone
  {
    hide DistinctIds, Ids;
    if gone == {} {
      KeepAll(s.data);
    } else {
      var id := Least(gone);
      FindsIds(s.data, id);
      KeptWithout(s.data, gone, id);
      IdsWithout(s.data, id);
      RemoveAllKeeps(s.Remove(id), gone - {id});
      assert Ascending(gone)[1..] == Ascending(gone - {id});
    }
  }

  lemma {:induction false} KeepAll(data: seq<Entry>)
    ensures Kept(data, {}) == data
  {
    if data == [] {
    } else {
      KeepAll(data[1..]);
    }
  }

  lemma {:induction false} KeptIn(data: seq<Entry>, gone: set<int>, e: Entry)
    ensures e in Kept(data, gone) <==> e in data && e.id !in gone
  {
    if data == [] {
    } else {
      KeptIn(data[1..], gone, e);
      assert data == [data[0]] + data[1..];
    }
  }

  /** Taking ids out in two goes is taking them out in one. */
  lemma {:induction false} KeptTwice(data: seq<Entry>, gone: set<int>, more: set<int>)
    ensures Kept(Kept(data, gone), more) == Kept(data, gone + more)
  {
    if data == [] {
    } else {
      hide Kept;
      assert data == [data[0]] + data[1..];
      KeptTwice(data[1..], gone, more);
      KeptCons(data[0], data[1..], gone);
      KeptCons(data[0], data[1..], gone + more);
      KeptCons(data[0], Kept(data[1..], gone), more);
    }
  }

  /** At whatever depth, Remove takes out the live entry with its id, and no other. */
  lemma RemoveTakesOne(s: State, id: int)
    requires s.Valid()
    ensures s.Remove(id).Live() == Kept(s.Live(), {id})
    ensures forall e :: e in s.Remove(id).Live() <==> e in s.Live() && e.id != id
  {
    hide Kept, DistinctIds;
    var i := Find(s.data, id);
    FindsIds(s.data, id);
    KeptTwice(s.data, s.removed, {id});
    forall e ensures e in Kept(s.Live(), {id}) <==> e in s.Live() && e.id != id {
      KeptIn(s.Live(), {id}, e);
    }
    if i == |s.data| {
      NothingToTake(s, id);
    } else if s.depth == 0 {
      KeptWithout(s.data, {id}, id);
      assert s.removed + {id} == {id} && {id} - {id} == {};
    }
  }

  /** An id that is not in the table is not among the live entries either. */
  lemma NothingToTake(s: State, id: int)
    requires s.Valid() && id !in Ids(s.data)
    ensures Kept(s.Live(), {id}) == s.Live()
  {
    KeptTwice(s.data, s.removed, {id});
    KeptIgnores(s.data, s.removed + {id}, id);
    assert s.removed + {id} - {id} == s.removed;
  }

  /** Leaving the last iterator commits exactly the deferred removals. */
  lemma LastLeaveCommits(s: State)
    requires s.Valid() && s.depth == 1
    ensures s.Leave().data == s.Live() && s.Leave().removed == {} && s.Leave().depth == 0
    ensures s.Leave().Valid()
  {
    RemoveAllKeeps(s.(depth := 0), s.removed);
    KeptDistinct(s.data, s.removed);
  }

  lemma {:induction false} KeptDistinct(data: seq<Entry>, gone: set<int>)
    requires DistinctIds(data)
    ensures DistinctIds(Kept(data, gone)) && Ids(Kept(data, gone)) == Ids(data) - gone
  {
    hide Ids, DistinctIds;
    NoIds();
    NoDistinct();
    if data == [] {
    } else {
      IdsCons(data);
      KeptDistinct(data[1..], gone);
      var rest := Kept(data[1..], gone);
      if data[0].id in gone {
        assert Kept(data, gone) == rest;
      } else {
        assert Kept(data, gone) == [data[0]] + rest;
        assert Kept(data, gone)[1..] == rest;
        IdsCons(Kept(data, gone));
        DistinctCons(data[0], rest);
      }
    }
  }

  lemma DistinctCons(e: Entry, rest: seq<Entry>)
    requires DistinctIds(rest) && e.id !in Ids(rest)
    ensures DistinctIds([e] + rest)
  {}
}
