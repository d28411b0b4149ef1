/**
  The generic repository over one entity type: a store of records (in store
  order, keyed by each entity's `Id`) and the change set that `Add`, `Update`
  and `Remove` write to. Changes are only staged here; making them durable
  is the data store's commit, which is not part of this model.
 */
module Repositories {
  import opened Wrappers
  import opened Queries

  /** The kind of a staged change. */
  datatype Op = Added | Updated | Removed

  /** One staged change: what is to happen, and to which entity value. */
  datatype Change<T> = Change(op: Op, entity: T)

  /** The result of the paged query: the count of all records, and one page of them. */
  datatype PageResult<T> = PageResult(totalRegistros: int, registros: seq<T>)

  /** One change of kind `op` per entity, in the order given. */
  function StageEach<T>(op: Op, es: seq<T>): (r: seq<Change<T>>)
    ensures |r| == |es|
    ensures forall k :: 0 <= k < |es| ==> r[k] == Change(op, es[k])
  {
    if es == [] then [] else [Change(op, es[0])] + StageEach(op, es[1..])
  }

  class GenericRepository<T> {
    /** The identity of an entity (BaseEntity.Id). */
    const IdOf: T -> int
    /** The records the store holds, in store order. */
    var records: seq<T>
    /** The change set, oldest change first. */
    var staged: seq<Change<T>>

    /** The store's primary key is unique. */
    ghost predicate Valid()
      reads this
    {
      KeysDistinct(records, IdOf)
    }

    constructor (idOf: T -> int, stored: seq<T>)
      requires KeysDistinct(stored, idOf)
      ensures Valid()
      ensures IdOf == idOf && records == stored && staged == []
    {
      IdOf := idOf;
      records := stored;
      staged := [];
    }

    /** Stages `entity` for insertion; no check that its key is new. */
    method Add(entity: T)
      modifies this
      ensures records == old(records)
      ensures staged == old(staged) + [Change(Added, entity)]
    {
      staged := staged + [Change(Added, entity)];
    }

    /** Stages each entity for insertion, in input order, one `Add` at a time. */
    method AddRange(entities: seq<T>)
      modifies this
      ensures records == old(records)
      ensures staged == old(staged) + StageEach(Added, entities)
    {
      var i := 0;
      while i < |entities|
        invariant 0 <= i <= |entities|
        invariant records == old(records)
        invariant staged == old(staged) + StageEach(Added, entities[..i])
      {
        Add(entities[i]);
        assert entities[..i + 1] == entities[..i] + [entities[i]];
        i := i + 1;
      }
      assert entities[..i] == entities;
    }

    /** The stored records satisfying `p`, in store order. */
    function Find(p: T -> bool): (r: seq<T>)
      reads this
      ensures r == Filter(records, p)
      ensures forall k :: 0 <= k < |r| ==> r[k] in records && p(r[k])
      ensures forall k :: 0 <= k < |records| && p(records[k]) ==> records[k] in r
    {
      Filter(records, p)
    }

    /** Every stored record, in store order. */
    function GetAll(): (r: seq<T>)
      reads this
      ensures |r| == |records|
      ensures forall k :: 0 <= k < |r| ==> r[k] == records[k]
    {
      records
    }

    /**
      The paged query. The total counts every stored record: `search` is not
      used. The page skips `(pageIndex - 1) * pageSize` records and takes at
      most `pageSize`.
     */
    function GetAllPaged(pageIndex: int, pageSize: int, search: string): (r: PageResult<T>)
      requires pageIndex >= 1 && pageSize >= 1
      requires PageStart(pageIndex, pageSize) <= Int32Max
      reads this
      ensures r.totalRegistros == |records|
      ensures |r.registros| == Min(pageSize, Max(0, |records| - PageStart(pageIndex, pageSize)))
      ensures forall k :: 0 <= k < |r.registros| ==>
        r.registros[k] == records[PageStart(pageIndex, pageSize) + k]
      ensures r.registros == Page(records, pageIndex, pageSize)
    {
      PageResult(|records|, Page(records, pageIndex, pageSize))
    }

    /** The record with key `id`, or None: a miss is not an error here. */
    function GetById(id: int): (r: Option<T>)
      reads this
      ensures r.Some? ==> r.value in records && IdOf(r.value) == id
      ensures r.None? <==> forall k :: 0 <= k < |records| ==> IdOf(records[k]) != id
      ensures Valid() ==> forall e :: e in records && IdOf(e) == id ==> r == Some(e)
    {
      FindByKey(records, IdOf, id)
    }

    /** Stages `entity` for deletion. */
    method Remove(entity: T)
      modifies this
      ensures records == old(records)
      ensures staged == old(staged) + [Change(Removed, entity)]
    {
      staged := staged + [Change(Removed, entity)];
    }

    /** Stages each entity for deletion, in input order. */
    method RemoveRange(entities: seq<T>)
      modifies this
      ensures records == old(records)
      ensures staged == old(staged) + StageEach(Removed, entities)
    {
      var i := 0;
      while i < |entities|
        invariant 0 <= i <= |entities|
        invariant records == old(records)
        invariant staged == old(staged) + StageEach(Removed, entities[..i])
      {
        Remove(entities[i]);
        assert entities[..i + 1] == entities[..i] + [entities[i]];
        i := i + 1;
      }
      assert entities[..i] == entities;
    }

    /** Stages the replacement of the record with `entity`'s key by `entity`. */
    method Update(entity: T)
      modifies this
      ensures records == old(records)
      ensures staged == old(staged) + [Change(Updated, entity)]
    {
      staged := staged + [Change(Updated, entity)];
    }
  }
}
