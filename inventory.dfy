/** The inventory controller: inventory transactions, and the verified
    assets linked to them. */
module Inventories {
  import opened Common
  import opened Store

  /** An inventory transaction. The three columns `create` defaults are
      explicit; the rest are opaque text. Dates are opaque text too. */
  datatype Inventory = Inventory(
    transactionId: Option<string>,
    transactionDate: Option<string>,
    createdBy: Option<string>,
    attrs: map<string, string>)

  /** A verified asset; `inventoryId` links it to at most one inventory. */
  datatype VerifiedAsset = VerifiedAsset(inventoryId: Option<Id>, attrs: map<string, string>)

  /** The signed-in user, when there is one. */
  datatype User = User(username: string)

  /** The defaults `create` fills into a validated body: a generated
      transaction id, the current date and the requesting user's name, each
      only where the body left the column empty. The generated id, the clock
      and the session are inputs. */
  method FillDefaults(value: Inventory, generatedId: string, now: string, user: Option<User>)
    returns (filled: Inventory)
    ensures filled.transactionId == if Truthy(value.transactionId) then value.transactionId else Some(generatedId)
    ensures filled.transactionDate == if Truthy(value.transactionDate) then value.transactionDate else Some(now)
    ensures filled.createdBy ==
              if !Truthy(value.createdBy) && user.Some? then Some(user.value.username) else value.createdBy
    ensures filled.attrs == value.attrs
  {
    filled := value;
    if !Truthy(filled.transactionId) {
      filled := filled.(transactionId := Some(generatedId));
    }
    if !Truthy(filled.transactionDate) {
      filled := filled.(transactionDate := Some(now));
    }
    if !Truthy(filled.createdBy) && user.Some? {
      filled := filled.(createdBy := Some(user.value.username));
    }
  }

  /** `create`: a valid body, with its defaults filled, becomes one new
      inventory. */
  method Create(inventories: Table<Inventory>, valid: bool, body: Inventory,
                generatedId: string, now: string, user: Option<User>)
    returns (status: Status, id: Option<Id>)
    requires inventories.Valid()
    modifies inventories
    ensures inventories.Valid()
    ensures status == Created || status == BadRequest
    ensures status == BadRequest <==> !valid
    ensures status == BadRequest ==> id == None && inventories.rows == old(inventories.rows)
    ensures status == Created ==>
              id.Some? && id.value !in old(inventories.rows) &&
              inventories.rows.Keys == old(inventories.rows).Keys + {id.value} &&
              (forall r :: r in old(inventories.rows) ==> inventories.rows[r] == old(inventories.rows)[r])
    ensures status == Created ==>
              var row := inventories.rows[id.value];
              Truthy(row.transactionId) <==> Truthy(body.transactionId) || generatedId != ""
    ensures status == Created ==>
              var row := inventories.rows[id.value];
              (Truthy(body.transactionId) ==> row.transactionId == body.transactionId) &&
              (Truthy(body.transactionDate) ==> row.transactionDate == body.transactionDate) &&
              (Truthy(body.createdBy) ==> row.createdBy == body.createdBy) &&
              row.transactionDate.Some? && row.attrs == body.attrs
    ensures status == Created ==>
              var row := inventories.rows[id.value];
              row.transactionId == (if Truthy(body.transactionId) then body.transactionId else Some(generatedId)) &&
              row.transactionDate == (if Truthy(body.transactionDate) then body.transactionDate else Some(now)) &&
              row.createdBy == (if !Truthy(body.createdBy) && user.Some? then Some(user.value.username) else body.createdBy)
  {
    if !valid {
      return BadRequest, None;
    }
    var value := FillDefaults(body, generatedId, now, user);
    var newId := inventories.Insert(value);
    return Created, Some(newId);
  }

  /** The stored ids among `ids`: what `findMany` with `id in ids` finds. */
  function Found(ids: seq<Id>, keys: set<Id>): set<Id> {
    set id | id in keys && id in ids
  }

  /** A subset as large as its superset is the superset. */
  lemma {:induction false} SameSizeSubset<T>(a: set<T>, b: set<T>)
    requires a <= b && |a| == |b|
    ensures a == b
  {
    if a != b {
      assert exists x :: x in b && x !in a;
      var x :| x in b && x !in a;
      assert a <= b - {x};
      assert |b - {x}| == |b| - 1;
      SubsetSize(a, b - {x});
    }
  }

  lemma {:induction false} SubsetSize<T>(a: set<T>, b: set<T>)
    requires a <= b
    ensures |a| <= |b|
    decreases |b|
  {
    if a != {} {
      var x :| x in a;
      SubsetSize(a - {x}, b - {x});
    }
  }

  /** The count test of `addVerifiedAssets` passes exactly when every id is
      stored and no id is repeated: a missing id and a repeated one both
      make the store find fewer rows than ids were given. */
  lemma {:induction false} FoundAll(ids: seq<Id>, keys: set<Id>)
    ensures |Found(ids, keys)| == |ids| <==> Distinct(ids) && Elements(ids) <= keys
  {
    var found := Found(ids, keys);
    assert found <= Elements(ids);
    SubsetSize(found, Elements(ids));
    ElementsSize(ids);
    DistinctIffSetSize(ids);
    if Distinct(ids) && Elements(ids) <= keys {
      assert found == Elements(ids);
    }
    if |found| == |ids| {
      SameSizeSubset(found, Elements(ids));
    }
  }

  /** `addVerifiedAssets`: links every listed verified asset to an existing
      inventory, all or nothing. An unknown inventory, or a list naming a
      missing or repeated asset, is refused with 404. */
  method AddVerifiedAssets(inventories: Table<Inventory>, assets: Table<VerifiedAsset>, valid: bool,
                           inventoryId: Id, assetIds: seq<Id>)
    returns (status: Status)
    requires assets.Valid()
    modifies assets
    ensures assets.Valid()
    ensures status == Ok || status == BadRequest || status == NotFound
    ensures status == BadRequest <==> !valid
    ensures status == NotFound <==>
              valid && (inventoryId !in inventories.rows ||
                        !Distinct(assetIds) || !(Elements(assetIds) <= old(assets.rows).Keys))
    ensures status != Ok ==> assets.rows == old(assets.rows)
    ensures status == Ok ==> assets.rows.Keys == old(assets.rows).Keys
    ensures status == Ok ==>
              forall a :: a in assets.rows ==>
                assets.rows[a] == if a in assetIds then old(assets.rows)[a].(inventoryId := Some(inventoryId))
                                  else old(assets.rows)[a]
  {
    if !valid {
      return BadRequest;
    }
    if inventoryId !in inventories.rows {
      return NotFound;
    }
    var found := Found(assetIds, assets.rows.Keys);
    FoundAll(assetIds, assets.rows.Keys);
    if |found| != |assetIds| {
      return NotFound;
    }
    var changes := map a | a in assets.rows && a in assetIds :: assets.rows[a].(inventoryId := Some(inventoryId));
    assets.UpdateMany(changes);
    return Ok;
  }

  /** `getVerifiedAssetsByInventoryId` without search and paging: for an
      existing inventory, exactly the assets linked to it, each once. */
  method GetVerifiedAssets(inventories: Table<Inventory>, assets: Table<VerifiedAsset>, valid: bool, id: Id)
    returns (status: Status, found: seq<Id>, total: nat)
    ensures status == Ok || status == BadRequest || status == NotFound
    ensures status == BadRequest <==> !valid
    ensures status == NotFound <==> valid && id !in inventories.rows
    ensures status != Ok ==> found == [] && total == 0
    ensures status == Ok ==>
              Distinct(found) && total == |found| &&
              forall a :: a in found <==> a in assets.rows && assets.rows[a].inventoryId == Some(id)
  {
    if !valid {
      return BadRequest, [], 0;
    }
    if id !in inventories.rows {
      return NotFound, [], 0;
    }
    found := FindMany(assets.rows, (v: VerifiedAsset) => v.inventoryId == Some(id));
    total := |found|;
    assert forall a :: a in found <==> a in Elements(found);
    return Ok, found, total;
  }
}
