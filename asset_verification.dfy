/** The asset-verification controller: recording that a tagged asset was
    found, which retires every tag carrying the verified tag number. */
module AssetVerifications {
  import opened Common
  import opened Records
  import opened Store
  import opened Schemas
  import Decimal
  import AssetTags

  /** A verification row: its columns as text, images included. */
  datatype AssetVerification = AssetVerification(fields: map<string, string>)

  /** The columns the request schemas know. */
  const Columns: set<string> := {
    "tagNumber", "assetCondition", "assetStatus", "brand", "modal", "serialNumber", "faNumber",
    "extNumber", "locationId", "assetCategoryId", "assetOldTagNumber", "employeeId"}

  /** The columns `create` demands. */
  const Required: set<string> := {
    "tagNumber", "assetCondition", "assetStatus", "brand", "modal", "serialNumber", "faNumber",
    "locationId", "assetCategoryId", "employeeId"}

  /** The create schema. */
  predicate CreateValid(body: map<string, string>) {
    Matches(body, Columns, Required)
  }

  /** The update schema. */
  predicate UpdateValid(body: map<string, string>) {
    MatchesSome(body, Columns)
  }

  /** `image${i}` for i in 1..5. */
  function ImageField(i: nat): (f: string)
    requires 1 <= i <= 5
    ensures |f| == 6 && f[..5] == "image"
  {
    "image" + [Decimal.DigitChar(i)]
  }

  /** The five image columns. */
  function ImageFields(): (s: set<string>)
    ensures forall i :: 1 <= i <= 5 ==> ImageField(i) in s
  {
    set i | 1 <= i <= 5 :: ImageField(i)
  }

  /** An upload for the field exists: `req.files[f] && req.files[f][0]`. */
  predicate Uploaded(files: map<string, seq<string>>, f: string) {
    f in files && files[f] != []
  }

  /** The image loop of `create` and `update`: every image field with an
      upload gets the first uploaded file's path, as `addDomain` (a helper
      this model does not see, passed in) makes it public; other columns keep
      their value. */
  method AttachImages(value: map<string, string>, files: map<string, seq<string>>, addDomain: string -> string)
    returns (result: map<string, string>)
    ensures forall k :: k in result <==> k in value || (k in ImageFields() && Uploaded(files, k))
    ensures forall k :: k in ImageFields() && Uploaded(files, k) ==> result[k] == addDomain(files[k][0])
    ensures forall k :: k in value && !(k in ImageFields() && Uploaded(files, k)) ==> result[k] == value[k]
  {
    result := value;
    for i := 1 to 6
      invariant forall k :: k in result <==>
                  k in value || exists j :: 1 <= j < i && k == ImageField(j) && Uploaded(files, k)
      invariant forall j :: 1 <= j < i && Uploaded(files, ImageField(j)) ==>
                  result[ImageField(j)] == addDomain(files[ImageField(j)][0])
      invariant forall k :: k in value && !(exists j :: 1 <= j < i && k == ImageField(j) && Uploaded(files, k)) ==>
                  result[k] == value[k]
    {
      var fieldName := ImageField(i);
      if Uploaded(files, fieldName) {
        result := result[fieldName := addDomain(files[fieldName][0])];
      }
    }
  }

  /** The tags left once a verification of tag number `n` is recorded: the
      `deleteMany` on `tagNumber` removes exactly the tags carrying `n`. */
  function Retired(tags: map<Id, AssetTag>, n: string): (r: map<Id, AssetTag>)
    ensures forall t :: t in r ==> t in tags && r[t] == tags[t] && r[t].tagNumber != n
    ensures forall t :: t in tags && tags[t].tagNumber != n ==> t in r
  {
    map t | t in tags && tags[t].tagNumber != n :: tags[t]
  }

  /** Retiring tags keeps every invariant of the tag lifecycle: numbers stay
      distinct and well formed, and every tag still names a stored capture. */
  lemma RetiredKeepsInvariants(categories: map<Id, FatsCategory>, captures: map<Id, AssetCapture>,
                               tags: map<Id, AssetTag>, n: string)
    ensures AssetTags.DistinctTagNumbers(tags) ==> AssetTags.DistinctTagNumbers(Retired(tags, n))
    ensures AssetTags.ParsableTails(categories, tags) ==> AssetTags.ParsableTails(categories, Retired(tags, n))
    ensures AssetTags.WellFormed(categories, tags) ==> AssetTags.WellFormed(categories, Retired(tags, n))
    ensures AssetTags.Referenced(captures, tags) ==> AssetTags.Referenced(captures, Retired(tags, n))
  {
  }

  /** With distinct tag numbers, recording a verification retires at most
      one tag. */
  lemma RetiresAtMostOne(tags: map<Id, AssetTag>, n: string)
    requires AssetTags.DistinctTagNumbers(tags)
    ensures |tags.Keys - Retired(tags, n).Keys| <= 1
  {
    var gone := tags.Keys - Retired(tags, n).Keys;
    if gone != {} {
      var a :| a in gone;
      forall b | b in gone
        ensures b == a
      {
        assert tags[b].tagNumber == n == tags[a].tagNumber;
      }
      assert gone == {a};
    }
  }

  /** `create`: a valid body, with its uploaded images, becomes a new
      verification row, and every tag carrying the verified tag number is
      retired. An invalid body is refused with nothing changed. */
  method Create(verifications: Table<AssetVerification>, tags: Table<AssetTag>,
                body: map<string, string>, files: map<string, seq<string>>, addDomain: string -> string)
    returns (status: Status, id: Option<Id>)
    requires verifications.Valid() && tags.Valid()
    modifies verifications, tags
    ensures verifications.Valid() && tags.Valid()
    ensures status == Created || status == BadRequest
    ensures status == BadRequest <==> !CreateValid(body)
    ensures status == BadRequest ==>
              id == None && verifications.rows == old(verifications.rows) && tags.rows == old(tags.rows)
    ensures status == Created ==>
              id.Some? && id.value !in old(verifications.rows) &&
              verifications.rows.Keys == old(verifications.rows).Keys + {id.value} &&
              (forall v :: v in old(verifications.rows) ==> verifications.rows[v] == old(verifications.rows)[v])
    ensures status == Created ==>
              var fields := verifications.rows[id.value].fields;
              (forall k :: k in fields <==> k in body || (k in ImageFields() && Uploaded(files, k))) &&
              (forall k :: k in body && !(k in ImageFields() && Uploaded(files, k)) ==> fields[k] == body[k]) &&
              (forall k :: k in ImageFields() && Uploaded(files, k) ==> k in fields && fields[k] == addDomain(files[k][0]))
    ensures status == Created ==> tags.rows == Retired(old(tags.rows), body["tagNumber"])
  {
    if !CreateValid(body) {
      return BadRequest, None;
    }
    var value := AttachImages(body, files, addDomain);
    var newId := verifications.Insert(AssetVerification(value));
    var tagNumber := value["tagNumber"];
    if Truthy(Some(tagNumber)) {
      tags.DeleteMany(set t | t in tags.rows && tags.rows[t].tagNumber == tagNumber);
    }
    assert "tagNumber" !in ImageFields();
    return Created, Some(newId);
  }

  /** `update`: a valid, non-empty body and the uploaded images overwrite the
      columns they name of an existing verification; other columns and other
      rows stay as they were. */
  method Update(verifications: Table<AssetVerification>, id: Id,
                body: map<string, string>, files: map<string, seq<string>>, addDomain: string -> string)
    returns (status: Status)
    requires verifications.Valid()
    modifies verifications
    ensures verifications.Valid()
    ensures status == Ok || status == BadRequest || status == NotFound
    ensures status == BadRequest <==> !UpdateValid(body)
    ensures status == NotFound <==> UpdateValid(body) && id !in old(verifications.rows)
    ensures status != Ok ==> verifications.rows == old(verifications.rows)
    ensures status == Ok ==>
              verifications.rows.Keys == old(verifications.rows).Keys &&
              forall v :: v in old(verifications.rows) && v != id ==> verifications.rows[v] == old(verifications.rows)[v]
    ensures status == Ok ==>
              var before := old(verifications.rows)[id].fields;
              var after := verifications.rows[id].fields;
              (forall k :: k in after <==> k in before || k in body || (k in ImageFields() && Uploaded(files, k))) &&
              (forall k :: k in ImageFields() && Uploaded(files, k) ==> after[k] == addDomain(files[k][0])) &&
              (forall k :: k in body && k !in ImageFields() ==> after[k] == body[k]) &&
              (forall k :: k in before && k !in body && !(k in ImageFields() && Uploaded(files, k)) ==> after[k] == before[k])
  {
    if !UpdateValid(body) {
      return BadRequest;
    }
    if id !in verifications.rows {
      return NotFound;
    }
    var existing := verifications.rows[id];
    var value := AttachImages(body, files, addDomain);
    verifications.Update(id, AssetVerification(existing.fields + value));
    return Ok;
  }

  /** `delete`: an existing verification is removed, and nothing else. */
  method Delete(verifications: Table<AssetVerification>, id: Id) returns (status: Status)
    requires verifications.Valid()
    modifies verifications
    ensures verifications.Valid()
    ensures status == Ok || status == NotFound
    ensures status == NotFound <==> id !in old(verifications.rows)
    ensures status == NotFound ==> verifications.rows == old(verifications.rows)
    ensures status == Ok ==> verifications.rows == old(verifications.rows) - {id}
  {
    if id !in verifications.rows {
      return NotFound;
    }
    verifications.Delete(id);
    return Ok;
  }
}
