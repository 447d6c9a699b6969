/** The relational store the controllers talk to through Prisma, reduced to
    what they rely on: a table of rows by id, with fresh ids for new rows. */
module Store {
  import opened Common

  /** One table. `nextId` stands for the store's id generator: every id in
      use is below it, so the id it hands out next is fresh. */
  class Table<T> {
    var rows: map<Id, T>
    var nextId: Id

    ghost predicate Valid()
      reads this
    {
      forall id :: id in rows ==> id < nextId
    }

    constructor ()
      ensures Valid() && rows == map[]
    {
      rows := map[];
      nextId := 0;
    }

    /** `create`: one new row under a fresh id. */
    method Insert(x: T) returns (id: Id)
      requires Valid()
      modifies this
      ensures Valid()
      ensures id !in old(rows) && rows == old(rows)[id := x]
      ensures id == old(nextId) && nextId == old(nextId) + 1
    {
      id := nextId;
      rows := rows[id := x];
      nextId := nextId + 1;
    }

    /** `createMany`: the rows `xs`, in order, under fresh distinct ids;
        every row already stored stays as it was. */
    method InsertMany(xs: seq<T>) returns (ids: seq<Id>)
      requires Valid()
      modifies this
      ensures Valid()
      ensures |ids| == |xs| && Distinct(ids)
      ensures forall i :: 0 <= i < |ids| ==> ids[i] !in old(rows)
      ensures rows.Keys == old(rows).Keys + Elements(ids)
      ensures forall i :: 0 <= i < |ids| ==> rows[ids[i]] == xs[i]
      ensures forall id :: id in old(rows) ==> rows[id] == old(rows)[id]
    {
      ids := [];
      var k := 0;
      while k < |xs|
        invariant 0 <= k <= |xs| && |ids| == k
        invariant Valid() && nextId == old(nextId) + k
        invariant forall i :: 0 <= i < k ==> ids[i] == old(nextId) + i
        invariant rows.Keys == old(rows).Keys + Elements(ids)
        invariant forall i :: 0 <= i < k ==> rows[ids[i]] == xs[i]
        invariant forall id :: id in old(rows) ==> rows[id] == old(rows)[id]
      {
        var id := Insert(xs[k]);
        ids := ids + [id];
        k := k + 1;
      }
    }

    /** `update` of a row known to exist. */
    method Update(id: Id, x: T)
      requires Valid() && id in rows
      modifies this
      ensures Valid()
      ensures rows == old(rows)[id := x]
    {
      rows := rows[id := x];
    }

    /** `delete` of one row. */
    method Delete(id: Id)
      requires Valid()
      modifies this
      ensures Valid()
      ensures rows == old(rows) - {id}
    {
      rows := rows - {id};
    }

    /** `deleteMany`: every row whose id is in `ids`. */
    method DeleteMany(ids: set<Id>)
      requires Valid()
      modifies this
      ensures Valid()
      ensures rows == old(rows) - ids
    {
      rows := rows - ids;
    }

    /** `updateMany`: each stored row named in `changes` takes its new
        value; ids not stored are skipped and every other row stays. */
    method UpdateMany(changes: map<Id, T>)
      requires Valid()
      modifies this
      ensures Valid()
      ensures rows.Keys == old(rows).Keys
      ensures forall id :: id in rows ==> rows[id] == if id in changes then changes[id] else old(rows)[id]
    {
      rows := map id | id in rows :: if id in changes then changes[id] else rows[id];
    }
  }

  /** `findMany` with a `where` filter: every row satisfying `p`, each once,
      in an order the store chooses. */
  method FindMany<T>(rows: map<Id, T>, p: T -> bool) returns (found: seq<Id>)
    ensures Distinct(found)
    ensures Elements(found) == set id | id in rows && p(rows[id])
  {
    found := [];
    var rest := rows.Keys;
    while rest != {}
      decreases rest
      invariant rest <= rows.Keys && Distinct(found)
      invariant Elements(found) == set id | id in rows && p(rows[id]) && id !in rest
    {
      var id :| id in rest;
      if p(rows[id]) {
        assert id !in Elements(found);
        assert Elements(found + [id]) == Elements(found) + {id};
        found := found + [id];
      }
      rest := rest - {id};
    }
  }
}
