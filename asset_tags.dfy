/** The asset-tag controller: minting tags for captured assets, listing the
    unverified ones, updating and deleting a tag. */
module AssetTags {
  import opened Common
  import opened Records
  import opened Store
  import opened TagNumbers

  /** `capture.quantity || 1`: a null or zero quantity counts as one. */
  function TagQuantity(quantity: Option<int>): int {
    if quantity.None? || quantity.value == 0 then 1 else quantity.value
  }

  /** The captures `generate` picks: requested, stored, not yet generated. */
  function Pending(requested: seq<Id>, captures: map<Id, AssetCapture>): set<Id> {
    set id | id in requested && id in captures && !captures[id].isGenerated
  }

  /** The capture's category exists and has both codes, so the allocator
      succeeds for it. */
  predicate Usable(categories: map<Id, FatsCategory>, capture: AssetCapture) {
    capture.fatsCategoryId in categories && HasCodes(categories[capture.fatsCategoryId])
  }

  /** The tag prefix of a usable capture. */
  function PrefixOf(categories: map<Id, FatsCategory>, capture: AssetCapture): string
    requires Usable(categories, capture)
  {
    Prefix(categories[capture.fatsCategoryId])
  }

  /** The captures once those in `done` are flagged as generated. */
  function Flagged(captures: map<Id, AssetCapture>, done: set<Id>): map<Id, AssetCapture> {
    map id | id in captures :: if id in done then captures[id].(isGenerated := true) else captures[id]
  }

  /** Every stored tag under a category's prefix ends in digits, so the
      allocator's `parseInt` reads a number whichever of them is latest. */
  predicate ParsableTails(categories: map<Id, FatsCategory>, tags: map<Id, AssetTag>) {
    forall c, t {:trigger StartsWith(tags[t].tagNumber, Prefix(categories[c]))} ::
      c in categories && t in tags && StartsWith(tags[t].tagNumber, Prefix(categories[c]))
      ==> DigitTail(tags[t].tagNumber)
  }

  /** Every stored tag under the prefix of a category with codes is that
      prefix followed by exactly six digits. */
  predicate WellFormed(categories: map<Id, FatsCategory>, tags: map<Id, AssetTag>) {
    forall c, t {:trigger StartsWith(tags[t].tagNumber, Prefix(categories[c]))} ::
      c in categories && HasCodes(categories[c]) && t in tags &&
      StartsWith(tags[t].tagNumber, Prefix(categories[c]))
      ==> SixDigitSuffix(tags[t].tagNumber, Prefix(categories[c]))
  }

  predicate DistinctTagNumbers(tags: map<Id, AssetTag>) {
    forall a, b :: a in tags && b in tags && a != b ==> tags[a].tagNumber != tags[b].tagNumber
  }

  /** Tag numbers are distinct whenever the store is well formed. */
  predicate Sound(categories: map<Id, FatsCategory>, tags: map<Id, AssetTag>) {
    WellFormed(categories, tags) ==> DistinctTagNumbers(tags)
  }

  /** Every tag belongs to a stored capture. */
  predicate Referenced(captures: map<Id, AssetCapture>, tags: map<Id, AssetTag>) {
    forall t :: t in tags ==> tags[t].assetCaptureId in captures
  }

  /** A created tag row as `generate` reports it. */
  datatype TagRow = TagRow(id: Id, tag: AssetTag)

  /** One entry of `results`: a capture and the tags minted for it. */
  datatype Generated = Generated(assetCaptureId: Id, generatedTags: seq<TagRow>)

  function NumbersOf(rows: seq<TagRow>): (r: seq<string>)
    ensures |r| == |rows| && forall i :: 0 <= i < |rows| ==> r[i] == rows[i].tag.tagNumber
  {
    seq(|rows|, i requires 0 <= i < |rows| => rows[i].tag.tagNumber)
  }

  function IdsOf(rows: seq<TagRow>): (r: seq<Id>)
    ensures |r| == |rows| && forall i :: 0 <= i < |rows| ==> r[i] == rows[i].id
  {
    seq(|rows|, i requires 0 <= i < |rows| => rows[i].id)
  }

  /** The numbers are what the allocator issues for the prefix when the
      table holds the tag numbers `seen`: they follow the latest of them
      (TagNumbers.LastNumberBySet: any scan order of `seen` gives the same
      latest number). */
  ghost predicate FollowsLatest(seen: set<string>, prefix: string, numbers: seq<string>) {
    exists stored: seq<string> ::
      Elements(stored) == seen && TailsParse(stored, prefix) &&
      numbers == Allocation(prefix, LastNumber(stored, prefix), |numbers|)
  }

  /** The rows minted for a capture: `quantity || 1` new, unverified tags
      under distinct ids, all pointing at the capture, numbered by the
      allocator after the latest of the tag numbers `seen` before. */
  ghost predicate MintedRows(rows: seq<TagRow>, captureId: Id, prefix: string, quantity: int, seen: set<string>) {
    |rows| == Count(quantity) && Distinct(IdsOf(rows)) && FollowsLatest(seen, prefix, NumbersOf(rows)) &&
    forall i :: 0 <= i < |rows| ==> rows[i].tag == AssetTag(rows[i].tag.tagNumber, captureId, false, map[])
  }

  /** The rows are in the table as reported. */
  predicate StoredRows(rows: seq<TagRow>, tags: map<Id, AssetTag>) {
    forall i :: 0 <= i < |rows| ==> rows[i].id in tags && tags[rows[i].id] == rows[i].tag
  }

  /** None of the rows existed before. */
  predicate FreshRows(rows: seq<TagRow>, before: map<Id, AssetTag>) {
    forall i :: 0 <= i < |rows| ==> rows[i].id !in before
  }

  /** The tag numbers in the table. */
  function NumberSet(tags: map<Id, AssetTag>): set<string> {
    set id | id in tags :: tags[id].tagNumber
  }

  /** The tag numbers the allocator's `findFirst` scans: every stored tag's
      number (the store's own iteration order is left open). */
  method StoredTagNumbers(tags: map<Id, AssetTag>) returns (stored: seq<string>)
    ensures Elements(stored) == NumberSet(tags)
  {
    stored := [];
    var rest := tags.Keys;
    while rest != {}
      decreases rest
      invariant rest <= tags.Keys
      invariant Elements(stored) == set k | k in tags && k !in rest :: tags[k].tagNumber
    {
      var id :| id in rest;
      ghost var before := stored;
      stored := stored + [tags[id].tagNumber];
      rest := rest - {id};
      assert Elements(stored) == Elements(before) + {tags[id].tagNumber};
    }
  }

  /** The tags of one capture: the allocator's numbers, created as rows
      pointing at the capture. An unusable category fails before anything is
      created. */
  method Mint(categories: map<Id, FatsCategory>, tags: Table<AssetTag>, captureId: Id, capture: AssetCapture)
    returns (r: Result<seq<TagRow>, AllocError>)
    requires tags.Valid() && ParsableTails(categories, tags.rows)
    modifies tags
    ensures tags.Valid() && ParsableTails(categories, tags.rows)
    ensures r.Failure? <==> !Usable(categories, capture)
    ensures r.Failure? ==> tags.rows == old(tags.rows)
    ensures r.Success? ==>
              MintedRows(r.value, captureId, PrefixOf(categories, capture), TagQuantity(capture.quantity),
                         NumberSet(old(tags.rows))) &&
              FreshRows(r.value, old(tags.rows)) && StoredRows(r.value, tags.rows) &&
              tags.rows.Keys == old(tags.rows).Keys + Elements(IdsOf(r.value))
    ensures forall id :: id in old(tags.rows) ==> tags.rows[id] == old(tags.rows)[id]
    ensures Sound(categories, old(tags.rows)) ==> Sound(categories, tags.rows)
  {
    var stored := StoredTagNumbers(tags.rows);
    if capture.fatsCategoryId in categories {
      StoredTailsParse(categories, tags.rows, stored, capture.fatsCategoryId);
    }
    var issued := GenerateTagNumbers(categories, stored, capture.fatsCategoryId, TagQuantity(capture.quantity));
    if issued.Failure? {
      return Failure(issued.error);
    }
    var numbers := issued.value;
    ghost var prefix := PrefixOf(categories, capture);
    ghost var last := LastNumber(stored, prefix);
    assert numbers == Allocation(prefix, last, TagQuantity(capture.quantity));
    var made := seq(|numbers|, i requires 0 <= i < |numbers| => AssetTag(numbers[i], captureId, false, map[]));
    var ids := tags.InsertMany(made);
    var rows := seq(|ids|, i requires 0 <= i < |ids| => TagRow(ids[i], made[i]));
    assert IdsOf(rows) == ids;
    assert NumbersOf(rows) == numbers;
    assert NumbersOf(rows) == Allocation(prefix, last, |NumbersOf(rows)|);
    assert FollowsLatest(NumberSet(old(tags.rows)), prefix, NumbersOf(rows));
    MintKeepsTails(categories, old(tags.rows), tags.rows, rows, prefix, last);
    MintKeepsSound(categories, old(tags.rows), tags.rows, rows, stored, prefix, TagQuantity(capture.quantity));
    return Success(rows);
  }

  /** The allocator's precondition holds for the scanned numbers. */
  lemma StoredTailsParse(categories: map<Id, FatsCategory>, tags: map<Id, AssetTag>, stored: seq<string>, c: Id)
    requires c in categories && ParsableTails(categories, tags)
    requires Elements(stored) == NumberSet(tags)
    ensures TailsParse(stored, Prefix(categories[c]))
  {
    forall i | 0 <= i < |stored| && StartsWith(stored[i], Prefix(categories[c]))
      ensures DigitTail(stored[i])
    {
      assert stored[i] in NumberSet(tags);
      var id :| id in tags && tags[id].tagNumber == stored[i];
    }
  }

  /** Minted numbers end in digits, so ParsableTails survives a mint. */
  lemma MintKeepsTails(categories: map<Id, FatsCategory>, before: map<Id, AssetTag>, after: map<Id, AssetTag>,
                       rows: seq<TagRow>, prefix: string, last: nat)
    requires ParsableTails(categories, before)
    requires NumbersOf(rows) == Allocation(prefix, last, |rows|)
    requires after.Keys == before.Keys + Elements(IdsOf(rows)) && StoredRows(rows, after)
    requires forall id :: id in before ==> after[id] == before[id]
    ensures ParsableTails(categories, after)
  {
    forall c, t | c in categories && t in after && StartsWith(after[t].tagNumber, Prefix(categories[c]))
      ensures DigitTail(after[t].tagNumber)
    {
      if t !in before {
        var i :| 0 <= i < |rows| && IdsOf(rows)[i] == t;
        assert after[t].tagNumber == TagNumber(prefix, last + 1 + i);
        TagDigitTail(prefix, last + 1 + i);
      }
    }
  }

  /** The heart of tag uniqueness: if the store was well formed with
      distinct numbers, the minted numbers are new and distinct. */
  lemma MintKeepsSound(categories: map<Id, FatsCategory>, before: map<Id, AssetTag>, after: map<Id, AssetTag>,
                       rows: seq<TagRow>, stored: seq<string>, prefix: string, quantity: int)
    requires exists c :: c in categories && HasCodes(categories[c]) && Prefix(categories[c]) == prefix
    requires Elements(stored) == NumberSet(before)
    requires TailsParse(stored, prefix)
    requires NumbersOf(rows) == Allocation(prefix, LastNumber(stored, prefix), quantity)
    requires Distinct(IdsOf(rows)) && FreshRows(rows, before)
    requires after.Keys == before.Keys + Elements(IdsOf(rows)) && StoredRows(rows, after)
    requires forall id :: id in before ==> after[id] == before[id]
    ensures Sound(categories, before) ==> Sound(categories, after)
  {
    if Sound(categories, before) && WellFormed(categories, after) {
      var c :| c in categories && HasCodes(categories[c]) && Prefix(categories[c]) == prefix;
      assert WellFormed(categories, before);
      assert Numbered(stored, prefix) by {
        forall i | 0 <= i < |stored| && StartsWith(stored[i], prefix)
          ensures SixDigitSuffix(stored[i], prefix)
        {
          assert stored[i] in NumberSet(before);
          var id :| id in before && before[id].tagNumber == stored[i];
        }
      }
      var last := LastNumber(stored, prefix);
      AllocationFresh(stored, prefix, quantity);
      AllocationDistinct(prefix, last, quantity);
      forall a, b | a in after && b in after && a != b
        ensures after[a].tagNumber != after[b].tagNumber
      {
        if a !in before {
          var i :| 0 <= i < |rows| && IdsOf(rows)[i] == a;
          if b !in before {
            var j :| 0 <= j < |rows| && IdsOf(rows)[j] == b;
            assert NumbersOf(rows)[i] != NumbersOf(rows)[j];
          } else {
            assert after[b].tagNumber in NumberSet(before);
          }
        } else if b !in before {
          var j :| 0 <= j < |rows| && IdsOf(rows)[j] == b;
          assert after[a].tagNumber in NumberSet(before);
        }
      }
    }
  }

  /** The captures a list of results covers. */
  function CapturesOf(results: seq<Generated>): set<Id> {
    set k | 0 <= k < |results| :: results[k].assetCaptureId
  }

  /** The ids of every tag a list of results reports. */
  function MintedIds(results: seq<Generated>): set<Id> {
    set k, i | 0 <= k < |results| && 0 <= i < |results[k].generatedTags| :: results[k].generatedTags[i].id
  }

  lemma MintedIdsAppend(results: seq<Generated>, r: Generated)
    ensures MintedIds(results + [r]) == MintedIds(results) + Elements(IdsOf(r.generatedTags))
  {
    var results' := results + [r];
    forall t | t in MintedIds(results') ensures t in MintedIds(results) + Elements(IdsOf(r.generatedTags)) {
      var k, i :| 0 <= k < |results'| && 0 <= i < |results'[k].generatedTags| && results'[k].generatedTags[i].id == t;
      if k < |results| {
        assert results'[k] == results[k];
      } else {
        assert IdsOf(r.generatedTags)[i] == t;
      }
    }
    forall t | t in MintedIds(results) + Elements(IdsOf(r.generatedTags)) ensures t in MintedIds(results') {
      if t in MintedIds(results) {
        var k, i :| 0 <= k < |results| && 0 <= i < |results[k].generatedTags| && results[k].generatedTags[i].id == t;
        assert results'[k] == results[k];
      } else {
        var i :| 0 <= i < |r.generatedTags| && IdsOf(r.generatedTags)[i] == t;
        assert results'[|results|] == r;
      }
    }
  }

  /** The numbers of every tag a list of results reports. */
  function MintedNumbers(results: seq<Generated>): set<string> {
    set k, i | 0 <= k < |results| && 0 <= i < |results[k].generatedTags| :: results[k].generatedTags[i].tag.tagNumber
  }

  lemma MintedNumbersAppend(results: seq<Generated>, r: Generated)
    ensures MintedNumbers(results + [r]) == MintedNumbers(results) + Elements(NumbersOf(r.generatedTags))
  {
    var results' := results + [r];
    forall n | n in MintedNumbers(results') ensures n in MintedNumbers(results) + Elements(NumbersOf(r.generatedTags)) {
      var k, i :| 0 <= k < |results'| && 0 <= i < |results'[k].generatedTags| && results'[k].generatedTags[i].tag.tagNumber == n;
      if k < |results| {
        assert results'[k] == results[k];
      } else {
        assert NumbersOf(r.generatedTags)[i] == n;
      }
    }
    forall n | n in MintedNumbers(results) + Elements(NumbersOf(r.generatedTags)) ensures n in MintedNumbers(results') {
      if n in MintedNumbers(results) {
        var k, i :| 0 <= k < |results| && 0 <= i < |results[k].generatedTags| && results[k].generatedTags[i].tag.tagNumber == n;
        assert results'[k] == results[k];
      } else {
        var i :| 0 <= i < |r.generatedTags| && NumbersOf(r.generatedTags)[i] == n;
        assert results'[|results|] == r;
      }
    }
  }

  /** Storing new rows adds exactly their numbers to the table's numbers. */
  lemma NumberSetGrows(tags: map<Id, AssetTag>, tags': map<Id, AssetTag>, rows: seq<TagRow>)
    requires tags'.Keys == tags.Keys + Elements(IdsOf(rows)) && StoredRows(rows, tags')
    requires forall t :: t in tags ==> tags'[t] == tags[t]
    ensures NumberSet(tags') == NumberSet(tags) + Elements(NumbersOf(rows))
  {
    forall n | n in NumberSet(tags') ensures n in NumberSet(tags) + Elements(NumbersOf(rows)) {
      var t :| t in tags' && tags'[t].tagNumber == n;
      if t !in tags {
        var i :| 0 <= i < |rows| && IdsOf(rows)[i] == t;
        assert NumbersOf(rows)[i] == n;
      }
    }
    forall n | n in NumberSet(tags) + Elements(NumbersOf(rows)) ensures n in NumberSet(tags') {
      if n in NumberSet(tags) {
        var t :| t in tags && tags[t].tagNumber == n;
        assert tags'[t].tagNumber == n;
      } else {
        var i :| 0 <= i < |rows| && NumbersOf(rows)[i] == n;
        assert tags'[rows[i].id].tagNumber == n;
      }
    }
  }

  /** What `generate` reports for a capture: the capture was usable and
      pending before, and its tags are the rows minted for it, new and stored,
      numbered after the latest of the tag numbers `seen` when it was minted. */
  ghost predicate Reported(r: Generated, categories: map<Id, FatsCategory>, captures: map<Id, AssetCapture>,
                           seen: set<string>, before: map<Id, AssetTag>, after: map<Id, AssetTag>)
  {
    r.assetCaptureId in captures && Usable(categories, captures[r.assetCaptureId]) &&
    MintedRows(r.generatedTags, r.assetCaptureId, PrefixOf(categories, captures[r.assetCaptureId]),
               TagQuantity(captures[r.assetCaptureId].quantity), seen) &&
    FreshRows(r.generatedTags, before) && StoredRows(r.generatedTags, after)
  }

  /** Each capture of `results` appears there once and is now flagged; the
      other captures are as they were in `caps0`. */
  predicate Covered(caps0: map<Id, AssetCapture>, results: seq<Generated>, caps: map<Id, AssetCapture>) {
    |CapturesOf(results)| == |results| && caps == Flagged(caps0, CapturesOf(results))
  }

  /** The tag table holds the untouched rows of `tags0`, the rows reported
      in `results`, and nothing else; the k-th capture's tags follow the
      numbers stored when its turn came. */
  ghost predicate Recorded(categories: map<Id, FatsCategory>, caps0: map<Id, AssetCapture>, tags0: map<Id, AssetTag>,
                           results: seq<Generated>, tags: map<Id, AssetTag>)
  {
    (forall k :: 0 <= k < |results| ==>
       Reported(results[k], categories, caps0, NumberSet(tags0) + MintedNumbers(results[..k]), tags0, tags)) &&
    (forall id :: id in tags0 ==> id in tags && tags[id] == tags0[id]) &&
    tags.Keys == tags0.Keys + MintedIds(results) &&
    NumberSet(tags) == NumberSet(tags0) + MintedNumbers(results)
  }

  /** The table invariants `generate` keeps, from `caps0` and `tags0` to
      `caps` and `tags`. */
  predicate Kept(categories: map<Id, FatsCategory>, caps0: map<Id, AssetCapture>, tags0: map<Id, AssetTag>,
                 caps: map<Id, AssetCapture>, tags: map<Id, AssetTag>)
  {
    ParsableTails(categories, tags) &&
    (Sound(categories, tags0) ==> Sound(categories, tags)) &&
    (Referenced(caps0, tags0) ==> Referenced(caps, tags))
  }

  /** Before the first capture nothing is processed and nothing changed. */
  lemma NothingDone(categories: map<Id, FatsCategory>, caps0: map<Id, AssetCapture>, tags0: map<Id, AssetTag>)
    requires ParsableTails(categories, tags0)
    ensures Covered(caps0, [], caps0)
    ensures Recorded(categories, caps0, tags0, [], tags0)
    ensures Kept(categories, caps0, tags0, caps0, tags0)
  {
    assert Flagged(caps0, {}) == caps0;
  }

  /** Processing a new capture `id` adds it to the covered ones. */
  lemma CoveredStep(caps0: map<Id, AssetCapture>, results: seq<Generated>, caps: map<Id, AssetCapture>,
                    id: Id, rows: seq<TagRow>)
    requires Covered(caps0, results, caps) && id in caps0 && id !in CapturesOf(results)
    ensures Covered(caps0, results + [Generated(id, rows)], caps[id := caps[id].(isGenerated := true)])
  {
    var results' := results + [Generated(id, rows)];
    assert CapturesOf(results') == CapturesOf(results) + {id} by {
      assert forall k :: 0 <= k < |results| ==> results'[k] == results[k];
      assert results'[|results|] == Generated(id, rows);
    }
    FlagOneMore(caps0, CapturesOf(results), id);
  }

  lemma FlagOneMore(caps0: map<Id, AssetCapture>, done: set<Id>, id: Id)
    requires id in caps0 && id !in done
    ensures Flagged(caps0, done)[id := Flagged(caps0, done)[id].(isGenerated := true)] == Flagged(caps0, done + {id})
  {
  }

  /** The rows minted for capture `id` join the recorded ones. */
  lemma RecordedStep(categories: map<Id, FatsCategory>, caps0: map<Id, AssetCapture>, tags0: map<Id, AssetTag>,
                     results: seq<Generated>, tags: map<Id, AssetTag>,
                     id: Id, rows: seq<TagRow>, tags': map<Id, AssetTag>)
    requires Recorded(categories, caps0, tags0, results, tags)
    requires id in caps0 && Usable(categories, caps0[id])
    requires MintedRows(rows, id, PrefixOf(categories, caps0[id]), TagQuantity(caps0[id].quantity), NumberSet(tags))
    requires FreshRows(rows, tags) && StoredRows(rows, tags')
    requires tags'.Keys == tags.Keys + Elements(IdsOf(rows))
    requires forall t :: t in tags ==> tags'[t] == tags[t]
    ensures Recorded(categories, caps0, tags0, results + [Generated(id, rows)], tags')
  {
    var results' := results + [Generated(id, rows)];
    ReportedAll(categories, caps0, tags0, results, tags, id, rows, tags', results');
    MintedIdsAppend(results, Generated(id, rows));
    MintedNumbersAppend(results, Generated(id, rows));
    NumberSetGrows(tags, tags', rows);
    UnionStep(tags0.Keys, tags.Keys, MintedIds(results), tags'.Keys, Elements(IdsOf(rows)), MintedIds(results'));
    UnionStep(NumberSet(tags0), NumberSet(tags), MintedNumbers(results), NumberSet(tags'), Elements(NumbersOf(rows)), MintedNumbers(results'));
    RecordedIntro(categories, caps0, tags0, results', tags');
  }

  /** Set bookkeeping for one step: `b` is `a` plus what was done so far, and
      `c` adds the step's own part `e`. */
  lemma UnionStep<T>(a: set<T>, b: set<T>, done: set<T>, c: set<T>, e: set<T>, done': set<T>)
    requires b == a + done && c == b + e && done' == done + e
    ensures c == a + done'
  {
  }

  lemma RecordedIntro(categories: map<Id, FatsCategory>, caps0: map<Id, AssetCapture>, tags0: map<Id, AssetTag>,
                      results: seq<Generated>, tags: map<Id, AssetTag>)
    requires forall k :: 0 <= k < |results| ==>
               Reported(results[k], categories, caps0, NumberSet(tags0) + MintedNumbers(results[..k]), tags0, tags)
    requires forall id :: id in tags0 ==> id in tags && tags[id] == tags0[id]
    requires tags.Keys == tags0.Keys + MintedIds(results)
    requires NumberSet(tags) == NumberSet(tags0) + MintedNumbers(results)
    ensures Recorded(categories, caps0, tags0, results, tags)
  {
  }

  lemma ReportedAll(categories: map<Id, FatsCategory>, caps0: map<Id, AssetCapture>, tags0: map<Id, AssetTag>,
                    results: seq<Generated>, tags: map<Id, AssetTag>,
                    id: Id, rows: seq<TagRow>, tags': map<Id, AssetTag>, results': seq<Generated>)
    requires Recorded(categories, caps0, tags0, results, tags)
    requires id in caps0 && Usable(categories, caps0[id])
    requires MintedRows(rows, id, PrefixOf(categories, caps0[id]), TagQuantity(caps0[id].quantity), NumberSet(tags))
    requires FreshRows(rows, tags) && StoredRows(rows, tags')
    requires forall t :: t in tags ==> t in tags' && tags'[t] == tags[t]
    requires results' == results + [Generated(id, rows)]
    ensures forall k :: 0 <= k < |results'| ==>
              Reported(results'[k], categories, caps0, NumberSet(tags0) + MintedNumbers(results'[..k]), tags0, tags')
  {
    forall k | 0 <= k < |results'|
      ensures Reported(results'[k], categories, caps0, NumberSet(tags0) + MintedNumbers(results'[..k]), tags0, tags')
    {
      if k < |results| {
        assert results'[k] == results[k] && results'[..k] == results[..k];
        ReportedStable(results[k], categories, caps0, NumberSet(tags0) + MintedNumbers(results[..k]), tags0, tags, tags');
      } else {
        assert results'[..k] == results;
        ReportedNew(categories, caps0, tags0, tags, id, rows, tags');
      }
    }
  }

  lemma ReportedStable(r: Generated, categories: map<Id, FatsCategory>, caps0: map<Id, AssetCapture>,
                       seen: set<string>, tags0: map<Id, AssetTag>, tags: map<Id, AssetTag>, tags': map<Id, AssetTag>)
    requires Reported(r, categories, caps0, seen, tags0, tags)
    requires forall t :: t in tags ==> t in tags' && tags'[t] == tags[t]
    ensures Reported(r, categories, caps0, seen, tags0, tags')
  {
    StoredStable(r.generatedTags, tags, tags');
  }

  lemma ReportedNew(categories: map<Id, FatsCategory>, caps0: map<Id, AssetCapture>, tags0: map<Id, AssetTag>,
                    tags: map<Id, AssetTag>, id: Id, rows: seq<TagRow>, tags': map<Id, AssetTag>)
    requires forall t :: t in tags0 ==> t in tags
    requires id in caps0 && Usable(categories, caps0[id])
    requires MintedRows(rows, id, PrefixOf(categories, caps0[id]), TagQuantity(caps0[id].quantity), NumberSet(tags))
    requires FreshRows(rows, tags) && StoredRows(rows, tags')
    ensures Reported(Generated(id, rows), categories, caps0, NumberSet(tags), tags0, tags')
  {
    forall i | 0 <= i < |rows| ensures rows[i].id !in tags0 {
      assert rows[i].id !in tags;
    }
  }

  lemma StoredStable(rows: seq<TagRow>, tags: map<Id, AssetTag>, tags': map<Id, AssetTag>)
    requires StoredRows(rows, tags)
    requires forall t :: t in tags ==> t in tags' && tags'[t] == tags[t]
    ensures StoredRows(rows, tags')
  {
  }

  /** Minting for capture `id` and flagging it keeps the table invariants. */
  lemma KeptStep(categories: map<Id, FatsCategory>, caps0: map<Id, AssetCapture>, tags0: map<Id, AssetTag>,
                 caps: map<Id, AssetCapture>, tags: map<Id, AssetTag>,
                 id: Id, rows: seq<TagRow>, tags': map<Id, AssetTag>)
    requires Kept(categories, caps0, tags0, caps, tags) && id in caps
    requires ParsableTails(categories, tags') && (Sound(categories, tags) ==> Sound(categories, tags'))
    requires forall i :: 0 <= i < |rows| ==> rows[i].tag.assetCaptureId == id
    requires StoredRows(rows, tags') && tags'.Keys == tags.Keys + Elements(IdsOf(rows))
    requires forall t :: t in tags ==> tags'[t] == tags[t]
    ensures Kept(categories, caps0, tags0, caps[id := caps[id].(isGenerated := true)], tags')
  {
    if Referenced(caps0, tags0) {
      forall t | t in tags' ensures tags'[t].assetCaptureId in caps[id := caps[id].(isGenerated := true)] {
        if t !in tags {
          var i :| 0 <= i < |rows| && IdsOf(rows)[i] == t;
          assert tags'[t] == rows[i].tag;
        }
      }
    }
  }

  /** Once the pending captures are flagged, none is pending any more: the
      same request a second time finds nothing to generate. */
  lemma PendingCleared(requested: seq<Id>, captures: map<Id, AssetCapture>)
    ensures Pending(requested, Flagged(captures, Pending(requested, captures))) == {}
  {
    var after := Flagged(captures, Pending(requested, captures));
    forall id | id in requested && id in after ensures after[id].isGenerated {
    }
  }

  /** The `findMany` of `generate`: the requested captures not yet
      generated, each once, in an order the store chooses. */
  method PendingCaptures(requested: seq<Id>, captures: map<Id, AssetCapture>) returns (batch: seq<Id>)
    ensures Distinct(batch) && Elements(batch) == Pending(requested, captures)
  {
    batch := [];
    var rest := captures.Keys;
    while rest != {}
      decreases rest
      invariant rest <= captures.Keys && Distinct(batch)
      invariant Elements(batch) == set id | id in Pending(requested, captures) && id !in rest
    {
      var id :| id in rest;
      if id in requested && !captures[id].isGenerated {
        assert id !in Elements(batch);
        assert Elements(batch + [id]) == Elements(batch) + {id};
        batch := batch + [id];
      }
      rest := rest - {id};
    }
  }

  /** One round of `generate`: mint the tags of capture `id` and flag it. */
  method MintOne(categories: Table<FatsCategory>, captures: Table<AssetCapture>, tags: Table<AssetTag>,
                 ghost caps0: map<Id, AssetCapture>, ghost tags0: map<Id, AssetTag>,
                 ghost results: seq<Generated>, id: Id)
    returns (ok: bool, rows: seq<TagRow>)
    requires captures.Valid() && tags.Valid()
    requires Covered(caps0, results, captures.rows)
    requires Recorded(categories.rows, caps0, tags0, results, tags.rows)
    requires Kept(categories.rows, caps0, tags0, captures.rows, tags.rows)
    requires id in caps0 && id !in CapturesOf(results)
    modifies captures, tags
    ensures captures.Valid() && tags.Valid()
    ensures ok <==> Usable(categories.rows, caps0[id])
    ensures ok ==> Covered(caps0, results + [Generated(id, rows)], captures.rows) &&
                   Recorded(categories.rows, caps0, tags0, results + [Generated(id, rows)], tags.rows) &&
                   Kept(categories.rows, caps0, tags0, captures.rows, tags.rows)
    ensures !ok ==> captures.rows == old(captures.rows) && tags.rows == old(tags.rows)
  {
    var capture := captures.rows[id];
    assert capture == caps0[id];
    var minted := Mint(categories.rows, tags, id, capture);
    if minted.Failure? {
      return false, [];
    }
    rows := minted.value;
    captures.Update(id, capture.(isGenerated := true));
    CoveredStep(caps0, results, old(captures.rows), id, rows);
    RecordedStep(categories.rows, caps0, tags0, results, old(tags.rows), id, rows, tags.rows);
    KeptStep(categories.rows, caps0, tags0, old(captures.rows), old(tags.rows), id, rows, tags.rows);
    ok := true;
  }

  /** The loop of `generate` over the captures found. It stops at the first
      capture whose category cannot number tags. */
  method MintAll(categories: Table<FatsCategory>, captures: Table<AssetCapture>, tags: Table<AssetTag>,
                 batch: seq<Id>)
    returns (complete: bool, results: seq<Generated>)
    requires captures.Valid() && tags.Valid() && ParsableTails(categories.rows, tags.rows)
    requires Distinct(batch) && forall i :: 0 <= i < |batch| ==> batch[i] in captures.rows
    modifies captures, tags
    ensures captures.Valid() && tags.Valid()
    ensures complete <==> forall i :: 0 <= i < |batch| ==> Usable(categories.rows, old(captures.rows)[batch[i]])
    ensures |results| <= |batch| && (complete ==> |results| == |batch|)
    ensures forall k :: 0 <= k < |results| ==> results[k].assetCaptureId == batch[k]
    ensures Covered(old(captures.rows), results, captures.rows)
    ensures Recorded(categories.rows, old(captures.rows), old(tags.rows), results, tags.rows)
    ensures Kept(categories.rows, old(captures.rows), old(tags.rows), captures.rows, tags.rows)
  {
    results := [];
    ghost var caps0, tags0 := captures.rows, tags.rows;
    NothingDone(categories.rows, caps0, tags0);
    for i := 0 to |batch|
      invariant captures.Valid() && tags.Valid()
      invariant |results| == i && forall k :: 0 <= k < i ==> results[k].assetCaptureId == batch[k]
      invariant forall k :: 0 <= k < i ==> Usable(categories.rows, caps0[batch[k]])
      invariant Covered(caps0, results, captures.rows)
      invariant Recorded(categories.rows, caps0, tags0, results, tags.rows)
      invariant Kept(categories.rows, caps0, tags0, captures.rows, tags.rows)
    {
      forall k | 0 <= k < i ensures results[k].assetCaptureId != batch[i] {
        assert batch[k] != batch[i];
      }
      var ok, rows := MintOne(categories, captures, tags, caps0, tags0, results, batch[i]);
      if !ok {
        return false, results;
      }
      results := results + [Generated(batch[i], rows)];
    }
    complete := true;
  }

  /** `generate`: mints the tags of every requested capture not yet generated
      and flags it. A capture whose category cannot number tags stops the
      call with a server error, keeping what earlier captures got. */
  method Generate(categories: Table<FatsCategory>, captures: Table<AssetCapture>, tags: Table<AssetTag>,
                  request: Option<seq<Id>>)
    returns (status: Status, results: seq<Generated>)
    requires captures.Valid() && tags.Valid()
    requires ParsableTails(categories.rows, tags.rows)
    modifies captures, tags
    ensures captures.Valid() && tags.Valid() && ParsableTails(categories.rows, tags.rows)
    ensures status == Created || status == BadRequest || status == NotFound || status == ServerError
    ensures status == BadRequest <==> request.None?
    ensures status == NotFound <==> request.Some? && Pending(request.value, old(captures.rows)) == {}
    ensures status == BadRequest || status == NotFound ==>
              captures.rows == old(captures.rows) && tags.rows == old(tags.rows) && results == []
    ensures status == Created <==>
              request.Some? && Pending(request.value, old(captures.rows)) != {} &&
              forall id :: id in Pending(request.value, old(captures.rows)) ==> Usable(categories.rows, old(captures.rows)[id])
    ensures request.Some? ==>
              CapturesOf(results) <= Pending(request.value, old(captures.rows)) &&
              |results| == |CapturesOf(results)| &&
              captures.rows == Flagged(old(captures.rows), CapturesOf(results))
    ensures status == Created ==>
              CapturesOf(results) == Pending(request.value, old(captures.rows)) &&
              Pending(request.value, captures.rows) == {}
    ensures forall k :: 0 <= k < |results| ==>
              Reported(results[k], categories.rows, old(captures.rows),
                       NumberSet(old(tags.rows)) + MintedNumbers(results[..k]), old(tags.rows), tags.rows)
    ensures forall id :: id in old(tags.rows) ==> id in tags.rows && tags.rows[id] == old(tags.rows)[id]
    ensures tags.rows.Keys == old(tags.rows).Keys + MintedIds(results)
    ensures Sound(categories.rows, old(tags.rows)) ==> Sound(categories.rows, tags.rows)
    ensures Referenced(old(captures.rows), old(tags.rows)) ==> Referenced(captures.rows, tags.rows)
  {
    results := [];
    if request.None? {
      return BadRequest, results;
    }
    var batch := PendingCaptures(request.value, captures.rows);
    if batch == [] {
      return NotFound, results;
    }
    ghost var pending := Pending(request.value, captures.rows);
    assert batch[0] in pending;
    assert forall i :: 0 <= i < |batch| ==> batch[i] in Elements(batch);
    var complete;
    complete, results := MintAll(categories, captures, tags, batch);
    BatchCovered(batch, results, pending);
    if !complete {
      assert exists i :: 0 <= i < |batch| && !Usable(categories.rows, old(captures.rows)[batch[i]]);
      return ServerError, results;
    }
    PendingCleared(request.value, old(captures.rows));
    status := Created;
  }

  /** The results of the loop cover a prefix of the batch, and all of it
      when the loop completes. */
  lemma BatchCovered(batch: seq<Id>, results: seq<Generated>, pending: set<Id>)
    requires Distinct(batch) && Elements(batch) == pending
    requires |results| <= |batch| && forall k :: 0 <= k < |results| ==> results[k].assetCaptureId == batch[k]
    ensures CapturesOf(results) <= pending && |results| == |CapturesOf(results)|
    ensures |results| == |batch| ==> CapturesOf(results) == pending
  {
    forall k | 0 <= k < |results| ensures results[k].assetCaptureId in pending {
      assert batch[k] in Elements(batch);
    }
    assert CapturesOf(results) == Elements(batch[..|results|]) by {
      forall id | id in Elements(batch[..|results|]) ensures id in CapturesOf(results) {
        var i :| 0 <= i < |results| && batch[..|results|][i] == id;
        assert results[i].assetCaptureId == id;
      }
    }
    DistinctIffSetSize(batch[..|results|]);
    if |results| == |batch| {
      assert batch[..|results|] == batch;
    }
  }

  /** The tags that reference capture `c`. */
  function TagsOf(tags: map<Id, AssetTag>, c: Id): set<Id> {
    set t | t in tags && tags[t].assetCaptureId == c
  }

  /** The `assetTag.count({ where: { assetCaptureId } })` of `delete`. */
  method CountTagsOf(tags: map<Id, AssetTag>, c: Id) returns (n: nat)
    ensures n == |TagsOf(tags, c)|
  {
    n := 0;
    var rest := tags.Keys;
    while rest != {}
      decreases rest
      invariant rest <= tags.Keys
      invariant n == |set t | t in TagsOf(tags, c) && t !in rest|
    {
      var t :| t in rest;
      ghost var seen := set u | u in TagsOf(tags, c) && u !in rest;
      rest := rest - {t};
      if tags[t].assetCaptureId == c {
        assert (set u | u in TagsOf(tags, c) && u !in rest) == seen + {t};
        n := n + 1;
      } else {
        assert (set u | u in TagsOf(tags, c) && u !in rest) == seen;
      }
    }
    assert (set u | u in TagsOf(tags, c) && u !in rest) == TagsOf(tags, c);
  }

  /** `delete`: removes the tag, then its capture when no tag references the
      capture any more. Deleting a capture that is not stored fails in the
      store after the tag is gone. */
  method Delete(captures: Table<AssetCapture>, tags: Table<AssetTag>, tagId: Id)
    returns (status: Status, captureDeleted: bool)
    requires captures.Valid() && tags.Valid()
    modifies captures, tags
    ensures captures.Valid() && tags.Valid()
    ensures status == Ok || status == NotFound || status == ServerError
    ensures status == NotFound <==> tagId !in old(tags.rows)
    ensures status == NotFound ==>
              captures.rows == old(captures.rows) && tags.rows == old(tags.rows) && !captureDeleted
    ensures status != NotFound ==> tags.rows == old(tags.rows) - {tagId}
    ensures status != NotFound ==>
              var c := old(tags.rows)[tagId].assetCaptureId;
              (status == ServerError <==> TagsOf(tags.rows, c) == {} && c !in old(captures.rows)) &&
              (captureDeleted <==> status == Ok && TagsOf(tags.rows, c) == {}) &&
              captures.rows == if captureDeleted then old(captures.rows) - {c} else old(captures.rows)
    ensures Referenced(old(captures.rows), old(tags.rows)) ==>
              status != ServerError && Referenced(captures.rows, tags.rows)
  {
    captureDeleted := false;
    if tagId !in tags.rows {
      return NotFound, captureDeleted;
    }
    var c := tags.rows[tagId].assetCaptureId;
    tags.Delete(tagId);
    var remaining := CountTagsOf(tags.rows, c);
    if remaining == 0 {
      if c !in captures.rows {
        return ServerError, captureDeleted;
      }
      captures.Delete(c);
      captureDeleted := true;
    } else {
      assert TagsOf(tags.rows, c) != {};
    }
    status := Ok;
  }

  /** The tag columns an update body may carry besides `assetCapture`: an
      omitted column is None, and columns no handler decides on go to
      `attrs`. */
  datatype TagPatch = TagPatch(
    tagNumber: Option<string>,
    assetCaptureId: Option<Id>,
    isVerified: Option<bool>,
    attrs: map<string, string>)

  /** The capture columns an update body may carry under `assetCapture`. */
  datatype CapturePatch = CapturePatch(
    fatsCategoryId: Option<Id>,
    quantity: Option<Option<int>>,
    isGenerated: Option<bool>,
    attrs: map<string, string>)

  /** `Object.keys(...).length == 0`: the patch names no column. */
  predicate NoTagColumns(p: TagPatch) {
    p.tagNumber.None? && p.assetCaptureId.None? && p.isVerified.None? && p.attrs == map[]
  }

  predicate NoCaptureColumns(p: CapturePatch) {
    p.fatsCategoryId.None? && p.quantity.None? && p.isGenerated.None? && p.attrs == map[]
  }

  /** `assetCapture` is present and names at least one column. */
  predicate Given(p: Option<CapturePatch>) {
    p.Some? && !NoCaptureColumns(p.value)
  }

  /** The tag after a Prisma `update` with the patch as its data. */
  function PatchTag(t: AssetTag, p: TagPatch): (r: AssetTag)
    ensures p.tagNumber.Some? ==> r.tagNumber == p.tagNumber.value
    ensures p.tagNumber.None? ==> r.tagNumber == t.tagNumber
    ensures p.assetCaptureId.Some? ==> r.assetCaptureId == p.assetCaptureId.value
    ensures p.assetCaptureId.None? ==> r.assetCaptureId == t.assetCaptureId
    ensures forall k :: k in r.attrs <==> k in t.attrs || k in p.attrs
    ensures forall k :: k in p.attrs ==> r.attrs[k] == p.attrs[k]
  {
    AssetTag(Patch(t.tagNumber, p.tagNumber), Patch(t.assetCaptureId, p.assetCaptureId),
             Patch(t.isVerified, p.isVerified), t.attrs + p.attrs)
  }

  function PatchCapture(c: AssetCapture, p: CapturePatch): AssetCapture {
    AssetCapture(Patch(c.fatsCategoryId, p.fatsCategoryId), Patch(c.quantity, p.quantity),
                 Patch(c.isGenerated, p.isGenerated), c.attrs + p.attrs)
  }

  /** The tag table after the tag half of `update` succeeded. */
  function TagsAfter(tags: map<Id, AssetTag>, tagId: Id, p: TagPatch): map<Id, AssetTag>
    requires tagId in tags
  {
    if NoTagColumns(p) then tags else tags[tagId := PatchTag(tags[tagId], p)]
  }

  /** The tag update violates the capture foreign key. */
  predicate TagUpdateFails(captures: map<Id, AssetCapture>, p: TagPatch) {
    p.assetCaptureId.Some? && p.assetCaptureId.value !in captures
  }

  /** The capture update finds no row to update or violates the category
      foreign key. */
  predicate CaptureUpdateFails(categories: map<Id, FatsCategory>, captures: map<Id, AssetCapture>, c: Id,
                               p: Option<CapturePatch>) {
    Given(p) && (c !in captures || (p.value.fatsCategoryId.Some? && p.value.fatsCategoryId.value !in categories))
  }

  /** `update`: writes the given tag columns into the tag (only when there
      are any), then the given capture columns into the capture the tag
      pointed at before (only when there are any). Each write is a separate
      statement, so a failing capture write leaves the tag written. `valid`
      is the outcome of the request schema, which is not part of this model. */
  method Update(categories: map<Id, FatsCategory>, captures: Table<AssetCapture>, tags: Table<AssetTag>,
                tagId: Id, valid: bool, tagPatch: TagPatch, capturePatch: Option<CapturePatch>)
    returns (status: Status)
    requires captures.Valid() && tags.Valid()
    modifies captures, tags
    ensures captures.Valid() && tags.Valid()
    ensures status == Ok || status == BadRequest || status == NotFound || status == ServerError
    ensures status == BadRequest <==> !valid
    ensures status == NotFound <==> valid && tagId !in old(tags.rows)
    ensures status == BadRequest || status == NotFound ==>
              captures.rows == old(captures.rows) && tags.rows == old(tags.rows)
    ensures status == Ok || status == ServerError ==>
              TagUpdateFails(old(captures.rows), tagPatch) ==>
                status == ServerError && captures.rows == old(captures.rows) && tags.rows == old(tags.rows)
    ensures status == Ok || status == ServerError ==>
              !TagUpdateFails(old(captures.rows), tagPatch) ==>
                var c := old(tags.rows)[tagId].assetCaptureId;
                tags.rows == TagsAfter(old(tags.rows), tagId, tagPatch) &&
                (status == ServerError <==> CaptureUpdateFails(categories, old(captures.rows), c, capturePatch)) &&
                captures.rows == if status == Ok && Given(capturePatch)
                                 then old(captures.rows)[c := PatchCapture(old(captures.rows)[c], capturePatch.value)]
                                 else old(captures.rows)
  {
    if !valid {
      return BadRequest;
    }
    if tagId !in tags.rows {
      return NotFound;
    }
    var tag := tags.rows[tagId];
    if !NoTagColumns(tagPatch) {
      if TagUpdateFails(captures.rows, tagPatch) {
        return ServerError;
      }
      tags.Update(tagId, PatchTag(tag, tagPatch));
    }
    if Given(capturePatch) {
      var c := tag.assetCaptureId;
      if CaptureUpdateFails(categories, captures.rows, c, capturePatch) {
        return ServerError;
      }
      captures.Update(c, PatchCapture(captures.rows[c], capturePatch.value));
    }
    status := Ok;
  }

  /** Tag numbers that stay as they were keep the shape and distinctness
      facts as they were, both ways. */
  lemma RenumberFree(categories: map<Id, FatsCategory>, before: map<Id, AssetTag>, after: map<Id, AssetTag>)
    requires after.Keys == before.Keys
    requires forall t :: t in before ==> after[t].tagNumber == before[t].tagNumber
    ensures WellFormed(categories, before) <==> WellFormed(categories, after)
    ensures DistinctTagNumbers(before) <==> DistinctTagNumbers(after)
  {
    forall c, t | c in categories && t in before
      ensures StartsWith(after[t].tagNumber, Prefix(categories[c])) == StartsWith(before[t].tagNumber, Prefix(categories[c]))
    {
    }
  }

  /** An update that leaves the tag number alone keeps tag numbers distinct
      (when well formed), and one whose tag write succeeds keeps every tag
      attached to a stored capture, whatever the capture write does. */
  lemma UpdateKeepsInvariants(categories: map<Id, FatsCategory>, captures: map<Id, AssetCapture>,
                              tags: map<Id, AssetTag>, tagId: Id, p: TagPatch,
                              captures': map<Id, AssetCapture>)
    requires tagId in tags && captures'.Keys == captures.Keys
    requires !TagUpdateFails(captures, p)
    ensures p.tagNumber.None? ==> (Sound(categories, tags) <==> Sound(categories, TagsAfter(tags, tagId, p)))
    ensures Referenced(captures, tags) ==> Referenced(captures', TagsAfter(tags, tagId, p))
  {
    var tags' := TagsAfter(tags, tagId, p);
    if p.tagNumber.None? {
      RenumberFree(categories, tags, tags');
    }
  }

  /** The handler does not look at other tags' numbers: writing another
      tag's number into a tag leaves two tags with the same number. */
  lemma UpdateDuplicatesNumber(tags: map<Id, AssetTag>, tagId: Id, other: Id, p: TagPatch)
    requires tagId in tags && other in tags && other != tagId
    requires p.tagNumber == Some(tags[other].tagNumber)
    ensures !DistinctTagNumbers(TagsAfter(tags, tagId, p))
  {
    var tags' := TagsAfter(tags, tagId, p);
    assert tags'[tagId].tagNumber == tags'[other].tagNumber;
  }

  /** Writing `isGenerated: false` through `assetCapture` puts a requested
      capture back among those `generate` mints for, so a later `generate`
      issues a second batch of tags for it. */
  lemma UpdateReopensCapture(requested: seq<Id>, captures: map<Id, AssetCapture>, c: Id, p: CapturePatch)
    requires c in captures && c in requested
    requires p.isGenerated == Some(false)
    ensures c in Pending(requested, captures[c := PatchCapture(captures[c], p)])
  {
  }

  /** The tags `getAll` lists: those not yet verified. */
  function Unverified(tags: map<Id, AssetTag>): set<Id> {
    set t | t in tags && !tags[t].isVerified
  }

  /** `getAll` without search and paging: every unverified tag once, and
      their number as `total`. */
  method GetAll(tags: map<Id, AssetTag>) returns (found: seq<Id>, total: nat)
    ensures Distinct(found) && Elements(found) == Unverified(tags) && total == |Unverified(tags)|
  {
    found := FindMany(tags, (t: AssetTag) => !t.isVerified);
    DistinctIffSetSize(found);
    total := |found|;
  }
}
