/** The fixed-asset category controller. Its code checks are asymmetric:
    create refuses a repeated subCategoryCode, update refuses a mainCatCode
    that moves onto one already in use, and bulk create checks nothing. */
module FatsCategories {
  import opened Common
  import opened Store
  import opened Schemas
  import opened Records

  const Keys: set<string> := {"mainCatCode", "mainCategoryDesc", "mainDescription", "subCategoryCode", "subCategoryDesc"}

  /** The one schema of create, update and bulk create: every key required. */
  predicate Valid(body: map<string, string>) {
    Matches(body, Keys, Keys)
  }

  /** The row a valid body stores. */
  function FromBody(body: map<string, string>): (c: FatsCategory)
    requires Valid(body)
    ensures c.mainCatCode == body["mainCatCode"] && c.subCategoryCode == body["subCategoryCode"]
    ensures c.mainCategoryDesc == body["mainCategoryDesc"] && c.mainDescription == body["mainDescription"]
    ensures c.subCategoryDesc == body["subCategoryDesc"]
    ensures c.mainCatCode != "" && c.subCategoryCode != ""
  {
    FatsCategory(body["mainCatCode"], body["mainCategoryDesc"], body["mainDescription"],
                 body["subCategoryCode"], body["subCategoryDesc"])
  }

  /** Some stored category has this subCategoryCode. */
  predicate SubCodeHeld(rows: map<Id, FatsCategory>, code: string) {
    exists r :: r in rows && rows[r].subCategoryCode == code
  }

  /** Some stored category has this mainCatCode. */
  predicate MainCodeHeld(rows: map<Id, FatsCategory>, code: string) {
    exists r :: r in rows && rows[r].mainCatCode == code
  }

  /** No two stored categories share a subCategoryCode. */
  predicate UniqueSubCodes(rows: map<Id, FatsCategory>) {
    forall a, b :: a in rows && b in rows && a != b ==> rows[a].subCategoryCode != rows[b].subCategoryCode
  }

  /** `create`: a valid body becomes one new row unless its subCategoryCode
      is already in use (409). */
  method Create(categories: Table<FatsCategory>, body: map<string, string>) returns (status: Status, id: Option<Id>)
    requires categories.Valid()
    modifies categories
    ensures categories.Valid()
    ensures status == Created || status == BadRequest || status == Conflict
    ensures status == BadRequest <==> !Valid(body)
    ensures status == Conflict <==> Valid(body) && SubCodeHeld(old(categories.rows), body["subCategoryCode"])
    ensures status != Created ==> id == None && categories.rows == old(categories.rows)
    ensures status == Created ==>
              id.Some? && id.value !in old(categories.rows) &&
              categories.rows == old(categories.rows)[id.value := FromBody(body)]
    ensures UniqueSubCodes(old(categories.rows)) ==> UniqueSubCodes(categories.rows)
  {
    if !Valid(body) {
      return BadRequest, None;
    }
    if exists r :: r in categories.rows && categories.rows[r].subCategoryCode == body["subCategoryCode"] {
      return Conflict, None;
    }
    var newId := categories.Insert(FromBody(body));
    return Created, Some(newId);
  }

  /** `update`: a valid body replaces every column of an existing category.
      Only a change of mainCatCode is checked, against every stored
      category; subCategoryCode is not checked. */
  method Update(categories: Table<FatsCategory>, id: Id, body: map<string, string>) returns (status: Status)
    requires categories.Valid()
    modifies categories
    ensures categories.Valid()
    ensures status == Ok || status == BadRequest || status == NotFound || status == Conflict
    ensures status == BadRequest <==> !Valid(body)
    ensures status == NotFound <==> Valid(body) && id !in old(categories.rows)
    ensures status == Conflict <==>
              Valid(body) && id in old(categories.rows) &&
              body["mainCatCode"] != old(categories.rows)[id].mainCatCode &&
              MainCodeHeld(old(categories.rows), body["mainCatCode"])
    ensures status != Ok ==> categories.rows == old(categories.rows)
    ensures status == Ok ==> categories.rows == old(categories.rows)[id := FromBody(body)]
  {
    if !Valid(body) {
      return BadRequest;
    }
    if id !in categories.rows {
      return NotFound;
    }
    var existing := categories.rows[id];
    if body["mainCatCode"] != existing.mainCatCode {
      if exists r :: r in categories.rows && categories.rows[r].mainCatCode == body["mainCatCode"] {
        return Conflict;
      }
    }
    categories.Update(id, FromBody(body));
    return Ok;
  }

  /** `delete`: the store's "record not found" becomes 404; an existing
      category is removed, and nothing else. */
  method Delete(categories: Table<FatsCategory>, id: Id) returns (status: Status)
    requires categories.Valid()
    modifies categories
    ensures categories.Valid()
    ensures status == Ok || status == NotFound
    ensures status == NotFound <==> id !in old(categories.rows)
    ensures status == NotFound ==> categories.rows == old(categories.rows)
    ensures status == Ok ==> categories.rows == old(categories.rows) - {id}
    ensures UniqueSubCodes(old(categories.rows)) ==> UniqueSubCodes(categories.rows)
  {
    if id !in categories.rows {
      return NotFound;
    }
    categories.Delete(id);
    return Ok;
  }

  /** The rows a fully valid bulk body stores, in order. */
  function AllFromBodies(items: seq<map<string, string>>): (cs: seq<FatsCategory>)
    requires forall i :: 0 <= i < |items| ==> Valid(items[i])
    ensures |cs| == |items| && forall i :: 0 <= i < |items| ==> cs[i] == FromBody(items[i])
  {
    seq(|items|, i requires 0 <= i < |items| && Valid(items[i]) => FromBody(items[i]))
  }

  /** `bulkCreate`: a body that is not an array, or that holds an invalid
      item, is refused with 400 before anything is stored; otherwise every
      item is stored, with no check for repeated codes, and the count is the
      number of items. */
  method BulkCreate(categories: Table<FatsCategory>, items: Option<seq<map<string, string>>>)
    returns (status: Status, count: nat, ghost ids: seq<Id>)
    requires categories.Valid()
    modifies categories
    ensures categories.Valid()
    ensures status == Created || status == BadRequest
    ensures status == BadRequest <==> items.None? || !(forall i :: 0 <= i < |items.value| ==> Valid(items.value[i]))
    ensures status == BadRequest ==> count == 0 && categories.rows == old(categories.rows)
    ensures status == Created ==>
              count == |items.value| == |ids| && Distinct(ids) &&
              (forall i :: 0 <= i < |ids| ==> ids[i] !in old(categories.rows)) &&
              categories.rows.Keys == old(categories.rows).Keys + Elements(ids) &&
              (forall r :: r in old(categories.rows) ==> categories.rows[r] == old(categories.rows)[r]) &&
              (forall i :: 0 <= i < |ids| ==> categories.rows[ids[i]] == FromBody(items.value[i]))
  {
    ids := [];
    if items.None? {
      return BadRequest, 0, ids;
    }
    var validated := ValidateEach(items.value, Keys, Keys);
    if validated.None? {
      return BadRequest, 0, ids;
    }
    var created := AllFromBodies(validated.value);
    ids := categories.InsertMany(created);
    return Created, |created|, ids;
  }

  /** Bulk create can break what create keeps: a batch repeating one valid
      item stores two categories with the same subCategoryCode, whatever
      was stored before. */
  lemma BulkRepeatsSubCode(rows: map<Id, FatsCategory>, item: map<string, string>, ids: seq<Id>, rows': map<Id, FatsCategory>)
    requires Valid(item) && |ids| == 2 && Distinct(ids)
    requires rows'.Keys == rows.Keys + Elements(ids)
    requires forall i :: 0 <= i < |ids| ==> rows'[ids[i]] == FromBody([item, item][i])
    ensures !UniqueSubCodes(rows')
  {
    assert ids[0] in Elements(ids) && ids[1] in Elements(ids);
    assert rows'[ids[0]] == FromBody(item) == rows'[ids[1]];
  }

  /** Update can break it too: keeping the mainCatCode while taking another
      category's subCategoryCode passes every check. */
  lemma UpdateRepeatsSubCode(rows: map<Id, FatsCategory>, id: Id, other: Id, body: map<string, string>)
    requires id in rows && other in rows && id != other
    requires Valid(body) && body["mainCatCode"] == rows[id].mainCatCode
    requires body["subCategoryCode"] == rows[other].subCategoryCode
    ensures !UniqueSubCodes(rows[id := FromBody(body)])
  {
    var rows' := rows[id := FromBody(body)];
    assert rows'[id].subCategoryCode == rows'[other].subCategoryCode;
  }
}
