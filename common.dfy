/** Vocabulary shared by every controller: row ids, optional values, the status a
    handler answers with, and small facts about sequences. */
module Common {

  /** The id of a row; the store hands out fresh ones (see Store.Table). */
  type Id = nat

  datatype Option<T> = None | Some(value: T)

  datatype Result<T, E> = Success(value: T) | Failure(error: E)

  /** What a handler answers: a success code, the code of the MyError it throws,
      or ServerError for an error it passes on unmapped (a plain Error, or a
      failure of the store that the handler does not translate). */
  datatype Status = Ok | Created | BadRequest | NotFound | Conflict | ServerError {
    function Code(): (c: int)
      ensures Ok? || Created? <==> 200 <= c < 300
      ensures BadRequest? <==> c == 400
      ensures NotFound? <==> c == 404
      ensures Conflict? <==> c == 409
    {
      match this
      case Ok => 200
      case Created => 201
      case BadRequest => 400
      case NotFound => 404
      case Conflict => 409
      case ServerError => 500
    }
  }

  /** JavaScript truthiness of an optional string: present and not "". */
  predicate Truthy(o: Option<string>) {
    o.Some? && o.value != ""
  }

  /** A field checked by Joi's `string()`: absent, or a non-empty string
      (Joi refuses "" unless it is explicitly allowed). */
  predicate JoiString(o: Option<string>) {
    o.None? || o.value != ""
  }

  /** The column after a Prisma `update` whose data may omit it: a given
      value replaces the old one, an omitted one keeps it. */
  function Patch<T>(current: T, given: Option<T>): T {
    if given.Some? then given.value else current
  }

  predicate Distinct<T(==)>(s: seq<T>) {
    forall i, j :: 0 <= i < j < |s| ==> s[i] != s[j]
  }

  function Elements<T>(s: seq<T>): set<T> {
    set x | x in s
  }

  lemma {:induction false} ElementsSize<T>(s: seq<T>)
    ensures |Elements(s)| <= |s|
  {
    if s != [] {
      ElementsSize(s[1..]);
      assert Elements(s) == {s[0]} + Elements(s[1..]);
    }
  }

  /** A sequence has no repeated element exactly when the set of its elements
      is as large as the sequence: the `new Set(ids).size !== ids.length`
      test of the controllers. */
  lemma {:induction false} DistinctIffSetSize<T>(s: seq<T>)
    ensures Distinct(s) <==> |Elements(s)| == |s|
  {
    if s != [] {
      var rest := s[1..];
      DistinctIffSetSize(rest);
      ElementsSize(rest);
      assert Elements(s) == {s[0]} + Elements(rest);
      if s[0] in rest {
        assert Elements(s) == Elements(rest);
        var k :| 0 <= k < |rest| && rest[k] == s[0];
        assert s[0] == s[k + 1];
      } else {
        assert |Elements(s)| == 1 + |Elements(rest)|;
        if Distinct(rest) {
          forall i, j | 0 <= i < j < |s| ensures s[i] != s[j] {
            if i == 0 {
              assert s[j] == rest[j - 1];
            } else {
              assert s[i] == rest[i - 1] && s[j] == rest[j - 1];
            }
          }
        } else {
          var i, j :| 0 <= i < j < |rest| && rest[i] == rest[j];
          assert s[i + 1] == s[j + 1];
        }
      }
    }
  }
}
