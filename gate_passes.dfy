/** The gate-pass controller: a gate pass is a header with numbered detail
    lines, stored as rows of their own that point back at their pass. */
module GatePasses {
  import opened Common
  import opened Store

  /** A gate pass header; its columns are opaque text. */
  datatype GatePass = GatePass(header: map<string, string>)

  /** A detail line of a request: its columns, opaque text. */
  type Line = map<string, string>

  /** A stored detail line and the pass it belongs to. */
  datatype Detail = Detail(gatePassId: Id, line: Line)

  /** Every detail belongs to a stored pass (the relation's foreign key). */
  predicate Linked(passes: map<Id, GatePass>, details: map<Id, Detail>) {
    forall d :: d in details ==> details[d].gatePassId in passes
  }

  /** The detail rows of one pass. */
  function DetailsOf(details: map<Id, Detail>, gatePassId: Id): (ds: set<Id>)
    ensures forall d :: d in ds <==> d in details && details[d].gatePassId == gatePassId
  {
    set d | d in details && details[d].gatePassId == gatePassId
  }

  /** The detail rows `lines` become under the pass `gatePassId`. */
  function Under(gatePassId: Id, lines: seq<Line>): (ds: seq<Detail>)
    ensures |ds| == |lines| && forall i :: 0 <= i < |lines| ==> ds[i] == Detail(gatePassId, lines[i])
  {
    seq(|lines|, i requires 0 <= i < |lines| => Detail(gatePassId, lines[i]))
  }

  /** `create`: a valid request stores the header as a new pass together
      with exactly the given detail lines, or with none when `details` is
      absent. */
  method Create(passes: Table<GatePass>, details: Table<Detail>, valid: bool,
                header: map<string, string>, lines: Option<seq<Line>>)
    returns (status: Status, id: Option<Id>, ghost lineIds: seq<Id>)
    requires passes.Valid() && details.Valid()
    requires Linked(passes.rows, details.rows)
    modifies passes, details
    ensures passes.Valid() && details.Valid() && Linked(passes.rows, details.rows)
    ensures status == Created || status == BadRequest
    ensures status == BadRequest <==> !valid
    ensures status == BadRequest ==>
              id == None && passes.rows == old(passes.rows) && details.rows == old(details.rows)
    ensures status == Created ==>
              id.Some? && id.value !in old(passes.rows) &&
              passes.rows == old(passes.rows)[id.value := GatePass(header)]
    ensures status == Created ==>
              |lineIds| == (if lines.Some? then |lines.value| else 0) && Distinct(lineIds) &&
              details.rows.Keys == old(details.rows).Keys + Elements(lineIds) &&
              (forall d :: d in old(details.rows) ==> details.rows[d] == old(details.rows)[d]) &&
              (forall i :: 0 <= i < |lineIds| ==> details.rows[lineIds[i]] == Detail(id.value, lines.value[i])) &&
              DetailsOf(details.rows, id.value) == Elements(lineIds)
  {
    lineIds := [];
    if !valid {
      return BadRequest, None, lineIds;
    }
    var pid := passes.Insert(GatePass(header));
    if lines.Some? {
      lineIds := details.InsertMany(Under(pid, lines.value));
    }
    return Created, Some(pid), lineIds;
  }

  /** `update`: the given header columns overwrite those of an existing
      pass. When `details` is given, every detail of the pass is deleted and
      exactly the given lines are stored in its place; otherwise the details
      stay untouched. An unknown pass is 404 and nothing changes. */
  method Update(passes: Table<GatePass>, details: Table<Detail>, valid: bool, id: Id,
                header: map<string, string>, lines: Option<seq<Line>>)
    returns (status: Status, ghost lineIds: seq<Id>)
    requires passes.Valid() && details.Valid()
    requires Linked(passes.rows, details.rows)
    modifies passes, details
    ensures passes.Valid() && details.Valid() && Linked(passes.rows, details.rows)
    ensures status == Ok || status == BadRequest || status == NotFound
    ensures status == BadRequest <==> !valid
    ensures status == NotFound <==> valid && id !in old(passes.rows)
    ensures status != Ok ==> passes.rows == old(passes.rows) && details.rows == old(details.rows)
    ensures status == Ok ==>
              passes.rows == old(passes.rows)[id := GatePass(old(passes.rows)[id].header + header)]
    ensures status == Ok && lines.None? ==> details.rows == old(details.rows)
    ensures status == Ok && lines.Some? ==>
              |lineIds| == |lines.value| && Distinct(lineIds) &&
              details.rows.Keys == old(details.rows).Keys - DetailsOf(old(details.rows), id) + Elements(lineIds) &&
              (forall d :: d in old(details.rows) && old(details.rows)[d].gatePassId != id ==>
                 details.rows[d] == old(details.rows)[d]) &&
              (forall i :: 0 <= i < |lineIds| ==> details.rows[lineIds[i]] == Detail(id, lines.value[i])) &&
              DetailsOf(details.rows, id) == Elements(lineIds)
  {
    lineIds := [];
    if !valid {
      return BadRequest, lineIds;
    }
    if id !in passes.rows {
      return NotFound, lineIds;
    }
    if lines.Some? {
      details.DeleteMany(DetailsOf(details.rows, id));
      lineIds := details.InsertMany(Under(id, lines.value));
    }
    passes.Update(id, GatePass(passes.rows[id].header + header));
    return Ok, lineIds;
  }

  /** `delete`: an existing pass is removed together with its details. */
  method Delete(passes: Table<GatePass>, details: Table<Detail>, id: Id) returns (status: Status)
    requires passes.Valid() && details.Valid()
    requires Linked(passes.rows, details.rows)
    modifies passes, details
    ensures passes.Valid() && details.Valid() && Linked(passes.rows, details.rows)
    ensures status == Ok || status == NotFound
    ensures status == NotFound <==> id !in old(passes.rows)
    ensures status == NotFound ==> passes.rows == old(passes.rows) && details.rows == old(details.rows)
    ensures status == Ok ==>
              passes.rows == old(passes.rows) - {id} &&
              details.rows == old(details.rows) - DetailsOf(old(details.rows), id)
  {
    if id !in passes.rows {
      return NotFound;
    }
    details.DeleteMany(DetailsOf(details.rows, id));
    passes.Delete(id);
    return Ok;
  }

  /** `createDetail`: a line for an existing pass is stored; for an unknown
      pass it is 404 and nothing is created. */
  method CreateDetail(passes: Table<GatePass>, details: Table<Detail>, valid: bool, gatePassId: Id, line: Line)
    returns (status: Status, id: Option<Id>)
    requires details.Valid() && Linked(passes.rows, details.rows)
    modifies details
    ensures details.Valid() && Linked(passes.rows, details.rows)
    ensures status == Created || status == BadRequest || status == NotFound
    ensures status == BadRequest <==> !valid
    ensures status == NotFound <==> valid && gatePassId !in passes.rows
    ensures status != Created ==> id == None && details.rows == old(details.rows)
    ensures status == Created ==>
              id.Some? && id.value !in old(details.rows) &&
              details.rows == old(details.rows)[id.value := Detail(gatePassId, line)]
  {
    if !valid {
      return BadRequest, None;
    }
    if gatePassId !in passes.rows {
      return NotFound, None;
    }
    var newId := details.Insert(Detail(gatePassId, line));
    return Created, Some(newId);
  }

  /** `updateDetail`: the given columns and the required `gatePassId`
      overwrite an existing detail. Pointing it at a pass the store does not
      hold breaks the foreign key: the store refuses, and the error passes
      on unmapped. */
  method UpdateDetail(passes: Table<GatePass>, details: Table<Detail>, valid: bool, id: Id, gatePassId: Id, line: Line)
    returns (status: Status)
    requires details.Valid() && Linked(passes.rows, details.rows)
    modifies details
    ensures details.Valid() && Linked(passes.rows, details.rows)
    ensures status == Ok || status == BadRequest || status == NotFound || status == ServerError
    ensures status == BadRequest <==> !valid
    ensures status == NotFound <==> valid && id !in old(details.rows)
    ensures status == ServerError <==> valid && id in old(details.rows) && gatePassId !in passes.rows
    ensures status != Ok ==> details.rows == old(details.rows)
    ensures status == Ok ==>
              details.rows == old(details.rows)[id := Detail(gatePassId, old(details.rows)[id].line + line)]
  {
    if !valid {
      return BadRequest;
    }
    if id !in details.rows {
      return NotFound;
    }
    if gatePassId !in passes.rows {
      return ServerError;
    }
    details.Update(id, Detail(gatePassId, details.rows[id].line + line));
    return Ok;
  }

  /** `deleteDetail`: an existing detail is removed, and nothing else. */
  method DeleteDetail(passes: Table<GatePass>, details: Table<Detail>, id: Id) returns (status: Status)
    requires details.Valid() && Linked(passes.rows, details.rows)
    modifies details
    ensures details.Valid() && Linked(passes.rows, details.rows)
    ensures status == Ok || status == NotFound
    ensures status == NotFound <==> id !in old(details.rows)
    ensures status == NotFound ==> details.rows == old(details.rows)
    ensures status == Ok ==> details.rows == old(details.rows) - {id}
  {
    if id !in details.rows {
      return NotFound;
    }
    details.Delete(id);
    return Ok;
  }
}
