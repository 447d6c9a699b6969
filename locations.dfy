/** The location controller: a location is a set of optional descriptive
    columns, and a given `locationCode` is kept unique. */
module Locations {
  import opened Common
  import opened Store
  import opened Schemas

  /** A location row: the columns it was given. */
  datatype Location = Location(columns: map<string, string>) {
    function Code(): (o: Option<string>)
      ensures o.Some? <==> "locationCode" in columns
    {
      Get(columns, "locationCode")
    }
  }

  const Keys: set<string> := {"company", "building", "levelFloor", "office", "room", "locationCode"}

  /** The one schema of create and update: any of the keys, at least one. */
  predicate Valid(body: map<string, string>) {
    MatchesSome(body, Keys)
  }

  /** Some stored location has this code (`findFirst` finds a row). */
  predicate Held(rows: map<Id, Location>, code: string) {
    exists r :: r in rows && rows[r].Code() == Some(code)
  }

  /** No two stored locations share a code; locations without one do not
      count. */
  predicate Unique(rows: map<Id, Location>) {
    forall a, b :: a in rows && b in rows && a != b && rows[a].Code().Some? ==> rows[a].Code() != rows[b].Code()
  }

  /** Storing a row under `id` keeps codes unique exactly when the row has no
      code, keeps the code `id` had, or takes a code no other row holds. */
  lemma {:induction false} StoreKeepsUnique(rows: map<Id, Location>, id: Id, l: Location)
    requires Unique(rows)
    ensures Unique(rows[id := l]) <==>
              l.Code().None? || (id in rows && rows[id].Code() == l.Code()) || !Held(rows - {id}, l.Code().value)
  {
    var rows' := rows[id := l];
    if l.Code().Some? && !(id in rows && rows[id].Code() == l.Code()) && Held(rows - {id}, l.Code().value) {
      var r :| r in rows - {id} && rows[r].Code() == l.Code();
      assert r in rows' && id in rows' && r != id && rows'[r].Code() == rows'[id].Code();
    }
    if l.Code().None? || (id in rows && rows[id].Code() == l.Code()) || !Held(rows - {id}, l.Code().value) {
      forall a, b | a in rows' && b in rows' && a != b && rows'[a].Code().Some?
        ensures rows'[a].Code() != rows'[b].Code()
      {
        if a == id {
          assert b in rows - {id};
        } else if b == id {
          assert a in rows - {id};
        }
      }
    }
  }

  /** `create`: a valid body becomes one new row unless it carries a code
      some location already has (409). A body without a code skips the
      check. */
  method Create(locations: Table<Location>, body: map<string, string>) returns (status: Status, id: Option<Id>)
    requires locations.Valid()
    modifies locations
    ensures locations.Valid()
    ensures status == Created || status == BadRequest || status == Conflict
    ensures status == BadRequest <==> !Valid(body)
    ensures status == Conflict <==>
              Valid(body) && "locationCode" in body && Held(old(locations.rows), body["locationCode"])
    ensures status != Created ==> id == None && locations.rows == old(locations.rows)
    ensures status == Created ==>
              id.Some? && id.value !in old(locations.rows) &&
              locations.rows == old(locations.rows)[id.value := Location(body)]
    ensures Unique(old(locations.rows)) ==> Unique(locations.rows)
  {
    if !Valid(body) {
      return BadRequest, None;
    }
    if "locationCode" in body {
      if exists r :: r in locations.rows && locations.rows[r].Code() == Some(body["locationCode"]) {
        return Conflict, None;
      }
    }
    ghost var before := locations.rows;
    var newId := locations.Insert(Location(body));
    if Unique(before) {
      StoreKeepsUnique(before, newId, Location(body));
    }
    return Created, Some(newId);
  }

  /** `update`: a valid body overwrites the columns it names of an existing
      location. The code is checked only when it is given and differs from
      the current one; a clash is refused with 409. */
  method Update(locations: Table<Location>, id: Id, body: map<string, string>) returns (status: Status)
    requires locations.Valid()
    modifies locations
    ensures locations.Valid()
    ensures status == Ok || status == BadRequest || status == NotFound || status == Conflict
    ensures status == BadRequest <==> !Valid(body)
    ensures status == NotFound <==> Valid(body) && id !in old(locations.rows)
    ensures status == Conflict <==>
              Valid(body) && id in old(locations.rows) && "locationCode" in body &&
              old(locations.rows)[id].Code() != Some(body["locationCode"]) &&
              Held(old(locations.rows), body["locationCode"])
    ensures status != Ok ==> locations.rows == old(locations.rows)
    ensures status == Ok ==>
              locations.rows == old(locations.rows)[id := Location(old(locations.rows)[id].columns + body)]
    ensures Unique(old(locations.rows)) ==> Unique(locations.rows)
  {
    if !Valid(body) {
      return BadRequest;
    }
    if id !in locations.rows {
      return NotFound;
    }
    var existing := locations.rows[id];
    if "locationCode" in body && existing.Code() != Some(body["locationCode"]) {
      if exists r :: r in locations.rows && locations.rows[r].Code() == Some(body["locationCode"]) {
        return Conflict;
      }
    }
    ghost var before := locations.rows;
    var updated := Location(existing.columns + body);
    locations.Update(id, updated);
    if Unique(before) {
      StoreKeepsUnique(before, id, updated);
    }
    return Ok;
  }

  /** `delete`: an existing location is removed, and nothing else. */
  method Delete(locations: Table<Location>, id: Id) returns (status: Status)
    requires locations.Valid()
    modifies locations
    ensures locations.Valid()
    ensures status == Ok || status == NotFound
    ensures status == NotFound <==> id !in old(locations.rows)
    ensures status == NotFound ==> locations.rows == old(locations.rows)
    ensures status == Ok ==> locations.rows == old(locations.rows) - {id}
    ensures Unique(old(locations.rows)) ==> Unique(locations.rows)
  {
    if id !in locations.rows {
      return NotFound;
    }
    locations.Delete(id);
    return Ok;
  }
}
