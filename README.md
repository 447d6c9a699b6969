# Fixed-asset tagging API — a verified model of its core

The service keeps a register of fixed assets. The central workflow:

- A **category** (`fatsCategory`) carries a main code and a sub code.
- An **asset capture** records an asset of some category and how many units it has.
- **Generating tags** for captures gives every unit a tag number. The number is the category prefix (main code, then sub code) followed by a six-digit running number, starting at 100001 per prefix. A capture whose tags were generated is flagged so that it is not tagged twice.
- **Verifying** an asset records where it was found and retires the tag that carries its tag number.

Around this workflow sit plain create/update/delete handlers for:

- employees and locations;
- categories, one at a time or in bulk;
- inventory transactions and the verified assets linked to them;
- gate passes and their detail lines;
- the WBS inventory (items with a category and a set of modifiers).

Each handler does three things. It validates a request against its schema. It checks the rows it depends on in the store (Prisma over a relational database). Then it answers with a status: 201/200, or the 400/404/409 of the error it raises, or a server error when the store itself refuses.

The model follows the program's structure:

- `Common`: ids, `Option`, `Result`, the status a handler answers with, and facts about sequences.
- `Store`: one database table as a class, `Table<T>`. It holds the rows and hands out fresh ids. Its methods are the store calls the handlers make: create, createMany, update, updateMany, delete, deleteMany, and findMany.
- `Schemas`: Joi object schemas over text fields: the allowed keys, the required keys, and non-empty strings.
- `Decimal` and `LexOrder`: `Number.prototype.toString`, `padStart`, `slice(-6)`, `parseInt`, and the string order the store uses for `orderBy: { tagNumber: "desc" }`.
- `Records`: the rows of the tag lifecycle.
- `TagNumbers`: the tag allocator.
- `TagExamples`: concrete runs of the allocator, including two inputs on which it issues a tag number that is already stored.
- One module per controller: `AssetTags`, `AssetVerifications`, `Employees`, `Locations`, `FatsCategories`, `Inventories`, `GatePasses`, `WbsInventory`.

Handlers that change rows are methods over `Store.Table` objects. Each one states its status in terms of the old state (both directions) and states the whole new state. It also states the table invariant it keeps:

- employee ids unique;
- location codes unique;
- serial numbers unique;
- every gate-pass detail belonging to a gate pass;
- stored tag numbers distinct, as long as they are well formed (each category prefix's tags are the prefix plus six digits).

Where the source does not keep an invariant, a lemma exhibits the break: categories' sub codes, and tag freshness after 999999 or under overlapping prefixes.

## Model

| member | source | states |
|---|---|---|
| Common.Status.Code | src/controllers/employ.js:27-29 | The status maps to the HTTP code the handler sends: 2xx exactly for Ok/Created, 400, 404 and 409 exactly for BadRequest, NotFound and Conflict. |
| Common.DistinctIffSetSize | src/controllers/employ.js:204-208 | `new Set(ids).size === ids.length` holds exactly when the ids are pairwise distinct. |
| Store.Table.Insert | src/controllers/employ.js:23-25 | `create` adds exactly one row under an id not in use before, and leaves every other row as it was. |
| Store.Table.InsertMany | src/controllers/employ.js:229-231 | `createMany` adds one row per item, in order, under distinct ids not in use before, and leaves every existing row as it was. |
| Store.Table.Update | src/controllers/location.js:119-122 | `update` of an existing row replaces that row and nothing else. |
| Store.Table.Delete | src/controllers/location.js:142-144 | `delete` removes that row and nothing else. |
| Store.Table.DeleteMany | src/controllers/assetVerification.js:36-40 | `deleteMany` removes exactly the given rows. |
| Store.Table.UpdateMany | src/controllers/inventory.js:88-97 | `updateMany` keeps the set of rows and rewrites exactly the rows it is given. |
| Store.FindMany | src/controllers/assetTags.js:142-159 | `findMany` (and `count` over the same filter) returns each row satisfying the filter exactly once, and no other row. |
| Schemas.ValidateEach | src/controllers/employ.js:191-201 | Validating an array item by item succeeds exactly when every item matches the schema, and then yields the items unchanged. |
| Decimal.LastChars | src/utils/tagNumberGenerator.js:34 | `slice(-6)` is the last six characters, or the whole string when it is shorter. |
| Decimal.ParseDigits | src/utils/tagNumberGenerator.js:34 | `parseInt` of k digits is below 10^k. |
| Decimal.ToDecimal | src/utils/tagNumberGenerator.js:42-43 | `toString` of a natural number is a non-empty run of digits. |
| Decimal.ParseAppend | src/utils/tagNumberGenerator.js:34 | Appending a digit multiplies the parsed value by ten and adds the digit. |
| Decimal.ParseToDecimal | src/utils/tagNumberGenerator.js:34-43 | `parseInt(n.toString())` is n again. |
| Decimal.ParseZeros | src/utils/tagNumberGenerator.js:34-44 | Leading zeros added by `padStart` do not change the parsed value. |
| Decimal.ToDecimalLength | src/utils/tagNumberGenerator.js:42-44 | n has at most k decimal digits exactly when n < 10^k. |
| Decimal.Pad6Facts | src/utils/tagNumberGenerator.js:42-44 | `n.toString().padStart(6, "0")` is all digits and parses back to n. It is exactly six long up to 999999, and past that it is the plain, longer decimal text. |
| Decimal.Pad6Injective | src/utils/tagNumberGenerator.js:42-44 | Different numbers give different padded suffixes. |
| LexOrder.Irreflexive | src/utils/tagNumberGenerator.js:26-28 | The tag order never puts a string before itself. |
| LexOrder.Transitive | src/utils/tagNumberGenerator.js:26-28 | The tag order is transitive. |
| LexOrder.Total | src/utils/tagNumberGenerator.js:26-28 | Any two different strings are ordered one way or the other. |
| LexOrder.CommonPrefix | src/utils/tagNumberGenerator.js:17-28 | Tags with the same prefix compare as their suffixes do. |
| LexOrder.DigitsOrder | src/utils/tagNumberGenerator.js:26-34 | Among digit strings of equal length, the string order is the numeric order. |
| LexOrder.LeadingDigitDecides | src/utils/tagNumberGenerator.js:26-28 | A smaller leading digit outweighs whatever follows it. |
| TagNumbers.Latest | src/utils/tagNumberGenerator.js:20-29 | `findFirst` returns a stored tag that starts with the prefix, and returns nothing exactly when no stored tag starts with it. |
| TagNumbers.GenerateTagNumbers | src/utils/tagNumberGenerator.js:3-49 | It fails with "Category not found" exactly for an unknown category, and with "missing required codes" exactly when a code is empty. Otherwise it issues the numbers that follow the latest stored tag's last six digits, or follow 100000. |
| TagNumbers.LatestIsGreatest | src/utils/tagNumberGenerator.js:20-29 | The tag `findFirst` returns sorts at or above every stored tag with the prefix. |
| TagNumbers.LatestBySet | src/utils/tagNumberGenerator.js:20-29 | Two scans of the same set of tag numbers give the same latest tag, whatever their order. |
| TagNumbers.LastNumberBySet | src/utils/tagNumberGenerator.js:20-36 | So the number the allocator continues from depends only on the set of stored tag numbers. |
| TagNumbers.NumbersBelowLast | src/utils/tagNumberGenerator.js:20-36 | When the stored tags of the prefix are prefix plus six digits, none carries a number above the one the allocator continues from. |
| TagNumbers.SuffixIsLastSix | src/utils/tagNumberGenerator.js:34 | For a tag that is prefix plus six digits, `slice(-6)` is exactly its running number. |
| TagNumbers.AllocationShape | src/utils/tagNumberGenerator.js:38-46 | `quantity` tags are issued (none for quantity ≤ 0). The i-th is the prefix followed by digits that parse to last + 1 + i. |
| TagNumbers.AllocationDistinct | src/utils/tagNumberGenerator.js:39-46 | One call never issues the same tag twice. |
| TagNumbers.AllocationFits | src/utils/tagNumberGenerator.js:39-46 | While the numbers stay within 999999, every issued tag is prefix plus six digits, and the tags come out in increasing tag order. |
| TagNumbers.TagFits | src/utils/tagNumberGenerator.js:42-44 | A running number up to 999999 gives a six-digit suffix that parses back to it. |
| TagNumbers.TagsInOrder | src/utils/tagNumberGenerator.js:26-44 | Smaller running numbers give tags that sort lower. |
| TagNumbers.AllocationOverflows | src/utils/tagNumberGenerator.js:42-44 | Past 999999 the suffix is the whole decimal number, longer than six digits. |
| TagNumbers.AllocationFresh | src/utils/tagNumberGenerator.js:20-46 | When stored tags of the prefix are prefix plus six digits, nothing issued is already stored. |
| TagNumbers.FirstAllocation | src/utils/tagNumberGenerator.js:31-46 | A prefix with no tag yet gets 100001, 100002, and so on. |
| TagNumbers.TagDigitTail | src/utils/tagNumberGenerator.js:34-44 | Every issued tag starts with its prefix and ends in digits, so a later call can read its number back. |
| TagExamples.FirstThreeTags | src/utils/tagNumberGenerator.js:31-46 | Three tags for a new prefix are prefix+"100001", prefix+"100002" and prefix+"100003". |
| TagExamples.ContinuesAfterLatest | src/utils/tagNumberGenerator.js:20-46 | After a stored prefix+"100050", two more tags are prefix+"100051" and prefix+"100052". |
| TagExamples.StoredAlone | src/utils/tagNumberGenerator.js:20-36 | A single stored tag of the prefix is the latest, and its number is read back exactly. |
| TagExamples.LastSixAfter | src/utils/tagNumberGenerator.js:34 | `slice(-6)` of prefix plus a digit tail is the last six digits of the tail. |
| TagExamples.LatestOfThree | src/utils/tagNumberGenerator.js:20-29 | Over three tags of the prefix, `findFirst` picks the greatest in tag order. |
| TagExamples.OverflowRepeatsTag | src/utils/tagNumberGenerator.js:20-46 | Past 999999 a later call reissues a stored tag. After prefix+"999999", two tags give prefix+"1000000" and prefix+"1000001". With all three stored, "1000001" sorts below "999999", so the next call issues prefix+"1000000" again. |
| TagExamples.LongTagsSortLower | src/utils/tagNumberGenerator.js:26-28 | prefix+"1000001" sorts below prefix+"999999" and not below prefix+"1000000". |
| TagExamples.PrefixCollisionRepeatsTag | src/utils/tagNumberGenerator.js:17-36 | When one category's prefix begins another's, the shorter prefix can reissue a stored tag. Its `startsWith` also finds prefix+"2100001" from the longer prefix, whose last six digits are 100001, so the call issues the stored prefix+"100002". |
| TagExamples.LongerPrefixSortsHigher | src/utils/tagNumberGenerator.js:26-28 | The colliding tag prefix+"2100001" sorts at or above the prefix's own tags. |
| AssetTags.StoredTagNumbers | src/utils/tagNumberGenerator.js:20-25 | The scan yields exactly the tag numbers stored in the tag table. |
| AssetTags.Mint | src/controllers/assetTags.js:41-57 | It fails exactly when the capture's category is unknown or lacks a code, and then changes nothing. Otherwise it stores `quantity \|\| 1` fresh tags for the capture, numbered by the allocator after the latest of the tag numbers stored before the call. Old rows are kept, and parsable tails are preserved. If the stored tag numbers were distinct whenever well formed, they still are. |
| AssetTags.StoredTailsParse | src/utils/tagNumberGenerator.js:20-36 | When every stored tag of a category prefix ends in digits, the allocator's read of the latest tag is defined. |
| AssetTags.MintKeepsTails | src/controllers/assetTags.js:42-57 | Storing an allocation keeps every category prefix's stored tags ending in digits. |
| AssetTags.MintKeepsSound | src/controllers/assetTags.js:42-57 | Storing an allocation keeps stored tag numbers distinct as long as they are well formed: if the old table was well formed with distinct numbers and the new one is well formed, the new numbers are distinct. |
| AssetTags.MintedIdsAppend | src/controllers/assetTags.js:65-68 | The tags reported after one more capture are the earlier ones plus that capture's. |
| AssetTags.MintedNumbersAppend | src/controllers/assetTags.js:65-68 | The tag numbers reported after one more capture are the earlier ones plus that capture's. |
| AssetTags.NumberSetGrows | src/controllers/assetTags.js:48-57 | Storing minted rows adds exactly their tag numbers to the table's set of tag numbers. |
| AssetTags.FlagOneMore | src/controllers/assetTags.js:60-63 | Flagging one more capture as generated is flagging the enlarged set. |
| AssetTags.PendingCleared | src/controllers/assetTags.js:23-27 | Once all selected captures are flagged, a repeat of the same request selects nothing. |
| AssetTags.PendingCaptures | src/controllers/assetTags.js:23-31 | `findMany` selects each requested, existing, not yet generated capture exactly once. |
| AssetTags.MintOne | src/controllers/assetTags.js:40-68 | It succeeds exactly when the capture is usable. Then it mints that capture's tags, flags it, and records the result. Otherwise nothing changes. |
| AssetTags.MintAll | src/controllers/assetTags.js:40-69 | The loop completes exactly when every selected capture is usable, and reports the captures in order. Each processed capture is flagged and its minted tags are stored; every earlier row is kept. |
| AssetTags.Generate | src/controllers/assetTags.js:13-79 | 400 exactly for a missing id list. 404 exactly when no requested capture is pending; both leave the store alone. 201 exactly when every pending capture is usable, after which all are flagged and none is pending. Each capture's tags are numbered after the latest of the tag numbers stored when its turn came: those before the request plus those minted for earlier captures. On a generator error the captures done so far stay done. Capture references are preserved, and so are tag numbers that are distinct whenever well formed. |
| AssetTags.CountTagsOf | src/controllers/assetTags.js:292-294 | `count` is the number of tags of the capture. |
| AssetTags.Delete | src/controllers/assetTags.js:269-314 | 404 exactly for an unknown tag, changing nothing. Otherwise the tag is removed, and its capture is deleted exactly when no tag of it remains. It is a server error exactly when that capture no longer exists. Referencing is preserved, so the server error cannot occur from a referenced state. |
| AssetTags.PatchTag | src/controllers/assetTags.js:226-235 | A tag write sets each given column (number, capture, verified flag) to its given value, keeps each omitted one, and merges the other columns with the given ones taking precedence. |
| AssetTags.Update | src/controllers/assetTags.js:207-267 | 400 exactly on a schema failure and 404 exactly for an unknown tag; both change nothing. A new capture id that no capture has fails the tag write (foreign key): a server error with nothing changed. Otherwise the tag is written with every given column (untouched when none are given). The capture the tag pointed at before is then written only when capture columns are given; a server error exactly when that capture is gone or the new category is unknown, with the tag write kept. |
| AssetTags.RenumberFree | src/controllers/assetTags.js:229-235 | A write that keeps every tag number keeps well-formedness and distinctness exactly as they were. |
| AssetTags.UpdateKeepsInvariants | src/controllers/assetTags.js:226-244 | An update whose tag write succeeds keeps every tag attached to a stored capture. One that gives no tag number also keeps tag-number soundness exactly as it was. |
| AssetTags.UpdateDuplicatesNumber | src/controllers/assetTags.js:226-235 | Writing another tag's number into a tag leaves two tags with the same number; the handler does not check. |
| AssetTags.UpdateReopensCapture | src/controllers/assetTags.js:237-244 | Writing `isGenerated: false` through `assetCapture` makes a requested capture pending for `generate` again, so it gets a second batch of tags. |
| AssetTags.GetAll | src/controllers/assetTags.js:136-144 | The listing and its `total` cover exactly the unverified tags, each once. |
| AssetVerifications.ImageField | src/controllers/assetVerification.js:20-21 | `image${i}` is "image" followed by one digit. |
| AssetVerifications.ImageFields | src/controllers/assetVerification.js:20-21 | The upload fields are image1 to image5. |
| AssetVerifications.AttachImages | src/controllers/assetVerification.js:19-28 | Each image field with an uploaded file is set to that file's public path. Every other field of the body is kept, and nothing else is added. |
| AssetVerifications.Retired | src/controllers/assetVerification.js:35-41 | `deleteMany` by tag number removes exactly the tags with that number and keeps the rest unchanged. |
| AssetVerifications.RetiredKeepsInvariants | src/controllers/assetVerification.js:35-41 | Retiring a tag number keeps tag numbers distinct, parsable and well formed, and keeps capture references. |
| AssetVerifications.RetiresAtMostOne | src/controllers/assetVerification.js:35-41 | With distinct tag numbers, verifying retires at most one tag. |
| AssetVerifications.Create | src/controllers/assetVerification.js:8-60 | 400 exactly when the create schema fails, changing nothing. Otherwise one new row holds exactly the body's fields and the uploaded image fields. An image field with an upload holds the file's public path; every other field holds the body's value, including a body image field without an upload. The tags with the verified tag number are retired. |
| AssetVerifications.Update | src/controllers/assetVerification.js:235-294 | 400 exactly when the update schema fails and 404 exactly for an unknown row; both change nothing. Otherwise only that row changes: given fields and uploaded images overwrite, and every other field stays. |
| AssetVerifications.Delete | src/controllers/assetVerification.js:296-332 | 404 exactly for an unknown row; otherwise exactly that row is removed. |
| Employees.FromBody | src/schemas/employ.schema.js:4-7 | A valid create body gives an employee with non-empty id and name taken from the body. |
| Employees.Patched | src/controllers/employ.js:141-144 | An update overwrites exactly the fields given. |
| Employees.AddedUnique | src/controllers/employ.js:204-231 | After adding a batch, employee ids are unique exactly when the batch's ids are distinct and none is already held. |
| Employees.Create | src/controllers/employ.js:7-33 | 400 exactly for an invalid body or an employee id already held, changing nothing. Otherwise one fresh row is added. Unique employee ids are preserved. |
| Employees.Update | src/controllers/employ.js:110-152 | 400 exactly for an invalid body, or a changed employee id that is already held. 404 exactly for an unknown row. Otherwise the row is patched. Unique employee ids are preserved. |
| Employees.Delete | src/controllers/employ.js:154-180 | 404 exactly for an unknown row; otherwise exactly that row is removed. |
| Employees.Screen | src/controllers/employ.js:184-226 | 400 exactly for a non-array, an invalid item or a repeated id. 409 exactly when the request is otherwise clean and some requested id is held. |
| Employees.BulkCreate | src/controllers/employ.js:182-241 | The statuses are as for Screen, and a refusal changes nothing. On 201 one fresh row per item is added, the count is the number of items, and unique employee ids are preserved. |
| Locations.Location.Code | src/schemas/location.schema.js:9 | The location code is present exactly when the column is. |
| Locations.StoreKeepsUnique | src/controllers/location.js:13-23 | Writing a row keeps location codes unique exactly when it has no code, keeps its own code, or its code is held by no other row. |
| Locations.Create | src/controllers/location.js:7-30 | 400 exactly for an invalid body. 409 exactly when a code is given and already held. Otherwise one fresh row is added. Unique codes are preserved. |
| Locations.Update | src/controllers/location.js:95-131 | 400 exactly for an invalid body and 404 exactly for an unknown row. 409 exactly when a given code differs from the row's and is held. Otherwise the columns are merged. Unique codes are preserved. |
| Locations.Delete | src/controllers/location.js:133-151 | 404 exactly for an unknown row; otherwise exactly that row is removed. |
| FatsCategories.FromBody | src/schemas/fatsCategory.schema.js:3-9 | A valid body gives a category with all five columns from the body and non-empty codes. |
| FatsCategories.Create | src/controllers/fatsCategory.js:7-33 | 400 exactly for an invalid body. 409 exactly when the sub code is already held. Otherwise one fresh row is added. Unique sub codes are preserved. |
| FatsCategories.Update | src/controllers/fatsCategory.js:113-152 | 400 exactly for an invalid body and 404 exactly for an unknown row. 409 exactly when the main code changes to one already held. Otherwise the row is replaced by the body. |
| FatsCategories.Delete | src/controllers/fatsCategory.js:154-172 | 404 exactly for an unknown row; otherwise exactly that row is removed. Unique sub codes are preserved. |
| FatsCategories.BulkCreate | src/controllers/fatsCategory.js:174-208 | 400 exactly for a non-array or an invalid item, changing nothing. Otherwise one fresh row per item is added, and the count is the number of items. |
| FatsCategories.BulkRepeatsSubCode | src/controllers/fatsCategory.js:195-198 | A bulk request with the same item twice breaks unique sub codes. |
| FatsCategories.UpdateRepeatsSubCode | src/controllers/fatsCategory.js:130-144 | An update that keeps the main code can take another row's sub code, breaking unique sub codes. |
| Inventories.FillDefaults | src/controllers/inventory.js:20-32 | The transaction id, date and creator are filled in only when missing (falsy), from the generator, the clock and the signed-in user. All else is kept. |
| Inventories.Create | src/controllers/inventory.js:13-54 | 400 exactly for an invalid body, changing nothing. Otherwise one fresh row is added. Its transaction id is the body's when truthy, else the generated id. Its date is the body's when truthy, else now. Its creator is the body's when truthy, else the signed-in user's name when there is one. Other columns are the body's. |
| Inventories.FoundAll | src/controllers/inventory.js:75-85 | `findMany({ id: { in: ids } })` finds as many rows as ids exactly when the ids are distinct and all exist. |
| Inventories.AddVerifiedAssets | src/controllers/inventory.js:56-120 | 400 exactly for an invalid body. 404 exactly for an unknown inventory, or when the count of found assets differs from the request (a missing or repeated id). Both change nothing. Otherwise exactly the listed assets are linked to the inventory. |
| Inventories.GetVerifiedAssets | src/controllers/inventory.js:198-257 | 400 exactly for an invalid query and 404 exactly for an unknown inventory. Otherwise the listing and `total` cover exactly the assets linked to it, each once. |
| GatePasses.Create | src/controllers/gatePass.js:11-42 | 400 exactly for an invalid body, changing nothing. Otherwise a fresh gate pass with the header is added, and its details are exactly the given lines. Every detail still belongs to a gate pass. |
| GatePasses.Update | src/controllers/gatePass.js:150-205 | 400 exactly for an invalid body and 404 exactly for an unknown gate pass; both change nothing. Otherwise the header is merged. When lines are given, the pass's old details are replaced by exactly those lines and other passes' details are kept. Every detail still belongs to a gate pass. |
| GatePasses.Delete | src/controllers/gatePass.js:207-235 | 404 exactly for an unknown gate pass. Otherwise the pass and all its details are removed, and nothing else is. |
| GatePasses.CreateDetail | src/controllers/gatePass.js:238-266 | 400 exactly for an invalid body and 404 exactly for an unknown gate pass. Otherwise one fresh detail of that pass is added. |
| GatePasses.UpdateDetail | src/controllers/gatePass.js:322-355 | 400 exactly for an invalid body and 404 exactly for an unknown detail. A server error exactly when the new gate pass does not exist (foreign key). Otherwise the detail is moved and its line merged. |
| GatePasses.DeleteDetail | src/controllers/gatePass.js:357-385 | 404 exactly for an unknown detail; otherwise exactly that detail is removed. |
| WbsInventory.StoreKeepsUnique | src/controllers/wbsInventory.js:30-39 | Writing an item whose serial no other row holds keeps serial numbers unique. |
| WbsInventory.ImageOf | src/controllers/wbsInventory.js:25-28 | An uploaded file sets the image to its public path; otherwise the body's image, or else the current one, stays. |
| WbsInventory.Fresh | src/controllers/wbsInventory.js:42-56 | A new item takes serial, category and other columns from the body. Its modifiers are exactly those listed. |
| WbsInventory.Updated | src/controllers/wbsInventory.js:215-232 | An updated item merges the body's columns and takes the body's category. Its serial is overwritten only when given. Its modifiers are exactly the listed ones (`set: []` then `connect`). |
| WbsInventory.Create | src/controllers/wbsInventory.js:8-67 | 400 exactly for an invalid body and 404 exactly for an unknown category. 409 exactly when a truthy serial is held. A server error exactly when the store refuses (unknown modifier, or an empty serial already held). Otherwise one fresh item is added, with modifiers among the existing ones. Unique serials are preserved. |
| WbsInventory.Update | src/controllers/wbsInventory.js:166-240 | 400 exactly for an invalid body, and 404 exactly for an unknown item or category. 409 exactly when a truthy serial differs from the item's and is held. A server error exactly when the store refuses. Otherwise the item is replaced by its update. Unique serials are preserved. |
| WbsInventory.Delete | src/controllers/wbsInventory.js:242-273 | 404 exactly for an unknown item; otherwise exactly that item is removed. Unique serials are preserved. |

## Left out

- File storage:
  - `addDomain` becomes a function parameter.
  - Uploaded files become their paths.
  - `deleteFile` (removing replaced or orphaned images, and cleanup after a failed request) is not modelled.
- Listing handlers (`getAll`, `getById`, `getByTagNumber`, `getDetailsByGatePassId`) and the Excel export are left out, except for the filters of `assetTags.getAll` and `getVerifiedAssetsByInventoryId`. Search, pagination, `orderBy` and the response envelope are left out, so a listing is a set of ids and the order the store returns is left open.
- Concurrency is not modelled:
  - Each handler runs alone.
  - `Promise.all` over tag creates is a sequential loop.
  - There are no transactions: a failure midway keeps what was already written, as in the source.
- Record-not-found races between a handler's lookup and its write (the Prisma error code `P2025`) are not modelled. So the 404 branches of the `catch` blocks are unreachable in the model.
- Request schemas:
  - The body is a map from field names to non-empty strings.
  - Type coercion, arrays inside objects, and Joi's error messages are left out.
  - `updateAssetTagSchema`, `inventoryTransactionSchema`, `inventoryItemsSchema` and `verifiedAssetsByInventoryQuerySchema` are imported by the controllers, but `src/schemas/assetTags.schema.js` and `src/schemas/inventory.schema.js` do not export them. The gate-pass and WBS schemas check dates, numbers and booleans. For these handlers, validation is a `valid` parameter.
- AssetTags.Mint: `parseInt` of a tag whose last six characters do not start with a digit gives NaN. The model requires every stored tag carrying a category prefix to end in digits (ParsableTails) instead of modelling NaN arithmetic.
- TagNumbers.AllocationFresh: freshness of issued tags is proved only under its stated precondition, that the stored tags of the prefix are prefix plus six digits. TagExamples shows the source breaks freshness otherwise: past 999999, and when one category prefix begins another.
- AssetTags.Generate: when the generator throws for one capture (unknown category or missing code), the answer is a server error. The captures processed before it keep their tags, as in the source. The order in which `findMany` returns captures is left open.
- Foreign-key failures are left out for `fatsCategory.delete` of a category still in use and for `assetVerification.create` with an unknown location, category or employee. Such a delete or create is modelled as succeeding.
- GatePasses.Update: a detail line's own `id` inside `details` is treated as an ordinary column.
- AssetTags.MintKeepsSound: it proves distinctness only as long as the table is well formed. It does not prove that a mint keeps the table well formed, and it cannot: past 999999, or when one category prefix begins another, minted numbers are not prefix plus six digits of every prefix they start with (TagNumbers.AllocationOverflows, TagExamples).
- AssetTags.Update: the database schema is not part of this model, so a unique index on `tagNumber`, if there is one, is not modelled; a duplicating number is stored (UpdateDuplicatesNumber). Foreign keys of capture columns kept in `attrs` (such as the location) are not checked.
- AssetTags.Delete: a tag whose `assetCaptureId` is null cannot be represented, because `Records.AssetTag.assetCaptureId` is a plain id. The seed data stores such tags (prisma/schema/seed.ts:336-339), and deleting the last of them makes the source's capture delete fail on a null id; the model does not cover that run.
- LexOrder: tag numbers are compared in plain code-point (binary) order. The database provider and its collation for `orderBy: { tagNumber: "desc" }` are not part of this model; a locale-aware collation could pick a different latest tag.
- WbsInventory.Fresh, WbsInventory.Updated and WbsInventory.Update: the model does not distinguish a null column from an absent one (both are None). The schema allows null for `serialNumber` and `image` (src/schemas/wbsInventory.schema.js:9,12). On update, a null in the body clears the column in the source (src/controllers/wbsInventory.js:219-224), but the model keeps the old value.
- Dates (`transactionDate`) are opaque strings. `generateTransactionId`, the clock and `req.user` are parameters of Inventories.Create.
- The authentication and authorization middleware and the routes are not part of this model.
