/** The employee controller: employees are keyed by a business
    `employeeId` that create, update and bulk create keep unique. */
module Employees {
  import opened Common
  import opened Store
  import opened Schemas

  datatype Employee = Employee(employeeId: string, name: string)

  const Keys: set<string> := {"employeeId", "name"}

  /** The create schema: both keys required. */
  predicate CreateValid(body: map<string, string>) {
    Matches(body, Keys, Keys)
  }

  /** The update schema: either key, at least one. */
  predicate UpdateValid(body: map<string, string>) {
    MatchesSome(body, Keys)
  }

  /** The row a valid create body stores. */
  function FromBody(body: map<string, string>): (e: Employee)
    requires CreateValid(body)
    ensures e.employeeId == body["employeeId"] && e.name == body["name"]
    ensures e.employeeId != "" && e.name != ""
  {
    Employee(body["employeeId"], body["name"])
  }

  /** The row after an update: given keys replace, omitted keys keep. */
  function Patched(e: Employee, body: map<string, string>): (r: Employee)
    ensures r.employeeId == (if "employeeId" in body then body["employeeId"] else e.employeeId)
    ensures r.name == (if "name" in body then body["name"] else e.name)
  {
    Employee(Patch(e.employeeId, Get(body, "employeeId")), Patch(e.name, Get(body, "name")))
  }

  /** No two stored employees share an employeeId. */
  predicate Unique(rows: map<Id, Employee>) {
    forall a, b :: a in rows && b in rows && a != b ==> rows[a].employeeId != rows[b].employeeId
  }

  /** Some stored employee holds `employeeId` (`findFirst` finds a row). */
  predicate Held(rows: map<Id, Employee>, employeeId: string) {
    exists r :: r in rows && rows[r].employeeId == employeeId
  }

  function EmployeeIds(es: seq<Employee>): (ids: seq<string>)
    ensures |ids| == |es| && forall i :: 0 <= i < |es| ==> ids[i] == es[i].employeeId
  {
    seq(|es|, i requires 0 <= i < |es| => es[i].employeeId)
  }

  /** Adding rows under fresh ids keeps employeeIds unique exactly when the
      new employeeIds are pairwise distinct and none of them is held
      already. */
  lemma {:induction false} AddedUnique(rows: map<Id, Employee>, ids: seq<Id>, es: seq<Employee>, rows': map<Id, Employee>)
    requires Unique(rows) && Distinct(ids) && |ids| == |es|
    requires forall i :: 0 <= i < |ids| ==> ids[i] !in rows
    requires rows'.Keys == rows.Keys + Elements(ids)
    requires forall r :: r in rows ==> rows'[r] == rows[r]
    requires forall i :: 0 <= i < |ids| ==> rows'[ids[i]] == es[i]
    ensures Unique(rows') <==> Distinct(EmployeeIds(es)) && forall i :: 0 <= i < |es| ==> !Held(rows, es[i].employeeId)
  {
    var names := EmployeeIds(es);
    if Unique(rows') {
      forall i, j | 0 <= i < j < |names|
        ensures names[i] != names[j]
      {
        assert ids[i] != ids[j] && ids[i] in rows' && ids[j] in rows';
      }
      forall i, r | 0 <= i < |es| && r in rows
        ensures rows[r].employeeId != es[i].employeeId
      {
        assert r != ids[i] && ids[i] in rows';
      }
    }
    if Distinct(names) && forall i :: 0 <= i < |es| ==> !Held(rows, es[i].employeeId) {
      forall a, b | a in rows' && b in rows' && a != b
        ensures rows'[a].employeeId != rows'[b].employeeId
      {
        if a !in rows {
          var i :| 0 <= i < |ids| && ids[i] == a;
          if b !in rows {
            var j :| 0 <= j < |ids| && ids[j] == b;
            assert names[i] != names[j] by {
              if i < j {} else { assert j < i; }
            }
          } else {
            assert rows[b].employeeId != es[i].employeeId;
          }
        } else if b !in rows {
          var j :| 0 <= j < |ids| && ids[j] == b;
          assert rows[a].employeeId != es[j].employeeId;
        }
      }
    }
  }

  /** `create`: a valid body whose employeeId nobody holds becomes one new
      row; otherwise 400 and nothing changes. */
  method Create(employees: Table<Employee>, body: map<string, string>) returns (status: Status, id: Option<Id>)
    requires employees.Valid()
    modifies employees
    ensures employees.Valid()
    ensures status == Created || status == BadRequest
    ensures status == BadRequest <==> !CreateValid(body) || Held(old(employees.rows), body["employeeId"])
    ensures status == BadRequest ==> id == None && employees.rows == old(employees.rows)
    ensures status == Created ==>
              id.Some? && id.value !in old(employees.rows) &&
              employees.rows == old(employees.rows)[id.value := FromBody(body)]
    ensures Unique(old(employees.rows)) ==> Unique(employees.rows)
  {
    if !CreateValid(body) {
      return BadRequest, None;
    }
    if exists r :: r in employees.rows && employees.rows[r].employeeId == body["employeeId"] {
      return BadRequest, None;
    }
    var newId := employees.Insert(FromBody(body));
    return Created, Some(newId);
  }

  /** `update`: a valid body patches an existing employee; moving it to an
      employeeId that another row holds is refused with 400, while keeping
      its own employeeId is allowed. */
  method Update(employees: Table<Employee>, id: Id, body: map<string, string>) returns (status: Status)
    requires employees.Valid()
    modifies employees
    ensures employees.Valid()
    ensures status == Ok || status == BadRequest || status == NotFound
    ensures status == NotFound <==> UpdateValid(body) && id !in old(employees.rows)
    ensures status == BadRequest <==>
              !UpdateValid(body) ||
              (id in old(employees.rows) && "employeeId" in body &&
               body["employeeId"] != old(employees.rows)[id].employeeId &&
               Held(old(employees.rows), body["employeeId"]))
    ensures status != Ok ==> employees.rows == old(employees.rows)
    ensures status == Ok ==> employees.rows == old(employees.rows)[id := Patched(old(employees.rows)[id], body)]
    ensures Unique(old(employees.rows)) ==> Unique(employees.rows)
  {
    if !UpdateValid(body) {
      return BadRequest;
    }
    if id !in employees.rows {
      return NotFound;
    }
    var existing := employees.rows[id];
    if "employeeId" in body && body["employeeId"] != existing.employeeId {
      if exists r :: r in employees.rows && employees.rows[r].employeeId == body["employeeId"] {
        return BadRequest;
      }
    }
    employees.Update(id, Patched(existing, body));
    return Ok;
  }

  /** `delete`: an existing employee is removed, and nothing else. */
  method Delete(employees: Table<Employee>, id: Id) returns (status: Status)
    requires employees.Valid()
    modifies employees
    ensures employees.Valid()
    ensures status == Ok || status == NotFound
    ensures status == NotFound <==> id !in old(employees.rows)
    ensures status == NotFound ==> employees.rows == old(employees.rows)
    ensures status == Ok ==> employees.rows == old(employees.rows) - {id}
    ensures Unique(old(employees.rows)) ==> Unique(employees.rows)
  {
    if id !in employees.rows {
      return NotFound;
    }
    employees.Delete(id);
    return Ok;
  }

  /** The rows a fully valid bulk body stores, in order. */
  function AllFromBodies(items: seq<map<string, string>>): (es: seq<Employee>)
    requires forall i :: 0 <= i < |items| ==> CreateValid(items[i])
    ensures |es| == |items| && forall i :: 0 <= i < |items| ==> es[i] == FromBody(items[i])
  {
    seq(|items|, i requires 0 <= i < |items| && CreateValid(items[i]) => FromBody(items[i]))
  }

  /** Every item of a bulk body matches the create schema. */
  predicate AllValid(items: seq<map<string, string>>) {
    forall i :: 0 <= i < |items| ==> CreateValid(items[i])
  }

  /** The employeeIds a fully valid bulk body asks for, in order. */
  function RequestedIds(items: seq<map<string, string>>): (ids: seq<string>)
    requires AllValid(items)
    ensures |ids| == |items| && forall i :: 0 <= i < |items| ==> ids[i] == items[i]["employeeId"]
  {
    seq(|items|, i requires 0 <= i < |items| && CreateValid(items[i]) => items[i]["employeeId"])
  }

  /** The checks `bulkCreate` makes before inserting, against the stored
      rows: Created when the batch may be inserted, else the refusal. */
  method Screen(rows: map<Id, Employee>, items: Option<seq<map<string, string>>>) returns (status: Status)
    ensures status == Created || status == BadRequest || status == Conflict
    ensures status == BadRequest <==>
              items.None? || !AllValid(items.value) || !Distinct(RequestedIds(items.value))
    ensures status == Conflict <==>
              items.Some? && AllValid(items.value) && Distinct(RequestedIds(items.value)) &&
              exists i :: 0 <= i < |items.value| && Held(rows, items.value[i]["employeeId"])
  {
    if items.None? {
      return BadRequest;
    }
    var validated := ValidateEach(items.value, Keys, Keys);
    if validated.None? {
      return BadRequest;
    }
    var employeeIds := RequestedIds(validated.value);
    DistinctIffSetSize(employeeIds);
    if |Elements(employeeIds)| != |employeeIds| {
      return BadRequest;
    }
    if exists r :: r in rows && rows[r].employeeId in employeeIds {
      var r :| r in rows && rows[r].employeeId in employeeIds;
      var i :| 0 <= i < |employeeIds| && employeeIds[i] == rows[r].employeeId;
      assert Held(rows, items.value[i]["employeeId"]);
      return Conflict;
    }
    forall i | 0 <= i < |employeeIds|
      ensures !Held(rows, items.value[i]["employeeId"])
    {
      assert employeeIds[i] in employeeIds;
    }
    return Created;
  }

  /** `bulkCreate`: all or nothing. A body that is not an array, an invalid
      item or a repeated employeeId is refused with 400; an employeeId already
      held is refused with 409; otherwise every item is stored and the count
      is the number of items. */
  method BulkCreate(employees: Table<Employee>, items: Option<seq<map<string, string>>>)
    returns (status: Status, count: nat, ghost ids: seq<Id>)
    requires employees.Valid()
    modifies employees
    ensures employees.Valid()
    ensures status == Created || status == BadRequest || status == Conflict
    ensures status == BadRequest <==>
              items.None? || !AllValid(items.value) || !Distinct(RequestedIds(items.value))
    ensures status == Conflict <==>
              items.Some? && AllValid(items.value) && Distinct(RequestedIds(items.value)) &&
              exists i :: 0 <= i < |items.value| && Held(old(employees.rows), items.value[i]["employeeId"])
    ensures status != Created ==> count == 0 && employees.rows == old(employees.rows)
    ensures status == Created ==>
              count == |items.value| == |ids| && Distinct(ids) &&
              (forall i :: 0 <= i < |ids| ==> ids[i] !in old(employees.rows)) &&
              employees.rows.Keys == old(employees.rows).Keys + Elements(ids) &&
              (forall r :: r in old(employees.rows) ==> employees.rows[r] == old(employees.rows)[r]) &&
              (forall i :: 0 <= i < |ids| ==> employees.rows[ids[i]] == FromBody(items.value[i]))
    ensures Unique(old(employees.rows)) ==> Unique(employees.rows)
  {
    ids := [];
    status := Screen(employees.rows, items);
    if status != Created {
      return status, 0, ids;
    }
    var es := AllFromBodies(items.value);
    assert EmployeeIds(es) == RequestedIds(items.value);
    ghost var before := employees.rows;
    ids := employees.InsertMany(es);
    if Unique(before) {
      AddedUnique(before, ids, es, employees.rows);
    }
    return Created, |es|, ids;
  }
}
