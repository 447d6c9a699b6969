/** The WBS inventory controller: stock items of a WBS category, each with
    an optional unique serial number and a set of linked modifiers. */
module WbsInventory {
  import opened Common
  import opened Store

  /** A stored item; columns no check reads are opaque text. */
  datatype Item = Item(
    serialNumber: Option<string>,
    image: Option<string>,
    categoryId: Id,
    modifiers: set<Id>,
    attrs: map<string, string>)

  /** A validated request body. `modifiers` is the list after Joi's
      `default([])`; `serialNumber` and `image` are None when absent. */
  datatype Body = Body(
    serialNumber: Option<string>,
    image: Option<string>,
    categoryId: Id,
    modifiers: seq<Id>,
    attrs: map<string, string>)

  /** Some other stored item than `except` has this serial number. */
  predicate SerialHeld(rows: map<Id, Item>, serial: string, except: Option<Id>) {
    exists r :: r in rows && Some(r) != except && rows[r].serialNumber == Some(serial)
  }

  /** Serial numbers are unique, as the store's unique column enforces. */
  predicate UniqueSerials(rows: map<Id, Item>) {
    forall a, b :: a in rows && b in rows && a != b && rows[a].serialNumber.Some? ==>
      rows[a].serialNumber != rows[b].serialNumber
  }

  /** Why the store itself refuses a row the checks let through: a modifier
      id it does not hold (`connect` finds no row), or a serial number,
      possibly the empty one the check skips, already on another item. */
  predicate StoreRefuses(rows: map<Id, Item>, modifiers: set<Id>, x: Item, except: Option<Id>) {
    !(x.modifiers <= modifiers) || (x.serialNumber.Some? && SerialHeld(rows, x.serialNumber.value, except))
  }

  /** Storing `x` under `id` keeps serials unique when no other item has its
      serial number. */
  lemma {:induction false} StoreKeepsUnique(rows: map<Id, Item>, id: Id, x: Item)
    requires UniqueSerials(rows)
    requires x.serialNumber.Some? ==> !SerialHeld(rows, x.serialNumber.value, Some(id))
    ensures UniqueSerials(rows[id := x])
  {
    var rows' := rows[id := x];
    forall a, b | a in rows' && b in rows' && a != b && rows'[a].serialNumber.Some?
      ensures rows'[a].serialNumber != rows'[b].serialNumber
    {
      if a == id {
        assert b in rows && Some(b) != Some(id);
      } else if b == id {
        assert a in rows && Some(a) != Some(id);
      }
    }
  }

  /** A column after an update whose body may omit it. */
  function Overwrite(current: Option<string>, given: Option<string>): Option<string> {
    if given.Some? then given else current
  }

  /** The image a request leaves on the item: an uploaded file's public
      path, else the body's `image`, else `current`. */
  function ImageOf(file: Option<string>, addDomain: string -> string, body: Body, current: Option<string>): (o: Option<string>)
    ensures file.Some? ==> o == Some(addDomain(file.value))
    ensures file.None? && body.image.Some? ==> o == body.image
    ensures file.None? && body.image.None? ==> o == current
  {
    if file.Some? then Some(addDomain(file.value)) else Overwrite(current, body.image)
  }

  /** The item `create` stores for a body. */
  function Fresh(body: Body, file: Option<string>, addDomain: string -> string): (x: Item)
    ensures x.serialNumber == body.serialNumber && x.categoryId == body.categoryId
    ensures x.modifiers == Elements(body.modifiers) && x.attrs == body.attrs
  {
    Item(body.serialNumber, ImageOf(file, addDomain, body, None), body.categoryId, Elements(body.modifiers), body.attrs)
  }

  /** The item `update` leaves: given columns overwrite, omitted ones keep,
      and the modifier set is exactly the given list. */
  function Updated(before: Item, body: Body, file: Option<string>, addDomain: string -> string): (x: Item)
    ensures x.serialNumber == Overwrite(before.serialNumber, body.serialNumber)
    ensures x.categoryId == body.categoryId && x.modifiers == Elements(body.modifiers)
    ensures x.attrs == before.attrs + body.attrs
  {
    Item(Overwrite(before.serialNumber, body.serialNumber), ImageOf(file, addDomain, body, before.image),
         body.categoryId, Elements(body.modifiers), before.attrs + body.attrs)
  }

  /** `create`: a valid body for an existing category becomes one new item
      linked to exactly the given modifiers. A category the store does not
      hold is 404; a non-empty serial number already in use is 409. */
  method Create(items: Table<Item>, categories: set<Id>, modifiers: set<Id>, valid: bool, body: Body,
                file: Option<string>, addDomain: string -> string)
    returns (status: Status, id: Option<Id>)
    requires items.Valid()
    modifies items
    ensures items.Valid()
    ensures status == Created || status == BadRequest || status == NotFound || status == Conflict || status == ServerError
    ensures status == BadRequest <==> !valid
    ensures status == NotFound <==> valid && body.categoryId !in categories
    ensures status == Conflict <==>
              valid && body.categoryId in categories &&
              Truthy(body.serialNumber) && SerialHeld(old(items.rows), body.serialNumber.value, None)
    ensures status == ServerError <==>
              valid && body.categoryId in categories && status != Conflict &&
              StoreRefuses(old(items.rows), modifiers, Fresh(body, file, addDomain), None)
    ensures status != Created ==> id == None && items.rows == old(items.rows)
    ensures status == Created ==>
              id.Some? && id.value !in old(items.rows) &&
              items.rows == old(items.rows)[id.value := Fresh(body, file, addDomain)]
    ensures status == Created ==> items.rows[id.value].modifiers == Elements(body.modifiers) <= modifiers
    ensures UniqueSerials(old(items.rows)) ==> UniqueSerials(items.rows)
  {
    if !valid {
      return BadRequest, None;
    }
    if body.categoryId !in categories {
      return NotFound, None;
    }
    if Truthy(body.serialNumber) {
      if exists r :: r in items.rows && items.rows[r].serialNumber == body.serialNumber {
        return Conflict, None;
      }
    }
    var x := Fresh(body, file, addDomain);
    if StoreRefuses(items.rows, modifiers, x, None) {
      return ServerError, None;
    }
    ghost var before := items.rows;
    var newId := items.Insert(x);
    if UniqueSerials(before) {
      StoreKeepsUnique(before, newId, x);
    }
    return Created, Some(newId);
  }

  /** `update`: a valid body for an existing item and category overwrites
      the columns it gives, and the modifier set becomes exactly the given
      list (old links are cleared first). The serial number is checked only
      when it is non-empty and differs from the current one. */
  method Update(items: Table<Item>, categories: set<Id>, modifiers: set<Id>, valid: bool, id: Id, body: Body,
                file: Option<string>, addDomain: string -> string)
    returns (status: Status)
    requires items.Valid()
    modifies items
    ensures items.Valid()
    ensures status == Ok || status == BadRequest || status == NotFound || status == Conflict || status == ServerError
    ensures status == BadRequest <==> !valid
    ensures status == NotFound <==> valid && (id !in old(items.rows) || body.categoryId !in categories)
    ensures status == Conflict <==>
              valid && id in old(items.rows) && body.categoryId in categories &&
              Truthy(body.serialNumber) && body.serialNumber != old(items.rows)[id].serialNumber &&
              SerialHeld(old(items.rows), body.serialNumber.value, None)
    ensures status == ServerError <==>
              valid && id in old(items.rows) && body.categoryId in categories && status != Conflict &&
              StoreRefuses(old(items.rows), modifiers, Updated(old(items.rows)[id], body, file, addDomain), Some(id))
    ensures status != Ok ==> items.rows == old(items.rows)
    ensures status == Ok ==> items.rows == old(items.rows)[id := Updated(old(items.rows)[id], body, file, addDomain)]
    ensures status == Ok ==> items.rows[id].modifiers == Elements(body.modifiers) <= modifiers
    ensures UniqueSerials(old(items.rows)) ==> UniqueSerials(items.rows)
  {
    if !valid {
      return BadRequest;
    }
    if id !in items.rows {
      return NotFound;
    }
    if body.categoryId !in categories {
      return NotFound;
    }
    var existing := items.rows[id];
    if Truthy(body.serialNumber) && body.serialNumber != existing.serialNumber {
      if exists r :: r in items.rows && items.rows[r].serialNumber == body.serialNumber {
        return Conflict;
      }
    }
    var x := Updated(existing, body, file, addDomain);
    if StoreRefuses(items.rows, modifiers, x, Some(id)) {
      return ServerError;
    }
    ghost var before := items.rows;
    items.Update(id, x);
    if UniqueSerials(before) {
      StoreKeepsUnique(before, id, x);
    }
    return Ok;
  }

  /** `delete`: an existing item is removed, and nothing else. */
  method Delete(items: Table<Item>, id: Id) returns (status: Status)
    requires items.Valid()
    modifies items
    ensures items.Valid()
    ensures status == Ok || status == NotFound
    ensures status == NotFound <==> id !in old(items.rows)
    ensures status == NotFound ==> items.rows == old(items.rows)
    ensures status == Ok ==> items.rows == old(items.rows) - {id}
    ensures UniqueSerials(old(items.rows)) ==> UniqueSerials(items.rows)
  {
    if id !in items.rows {
      return NotFound;
    }
    items.Delete(id);
    return Ok;
  }
}
