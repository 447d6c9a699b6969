/** The request schemas the controllers validate with, reduced to what they
    decide: which keys a body may and must carry. Bodies are read as maps
    from key to string; every schema here is a Joi `object` of `string()`
    keys. */
module Schemas {
  import opened Common

  /** Joi's `object({...})` whose keys are all `string()`: no key outside
      `keys`, every key of `required` present, and no empty string (Joi
      refuses "" unless a schema allows it). */
  predicate Matches(body: map<string, string>, keys: set<string>, required: set<string>) {
    body.Keys <= keys && required <= body.Keys && forall k :: k in body ==> body[k] != ""
  }

  /** An update schema: all keys optional, and `.min(1)` demands one. */
  predicate MatchesSome(body: map<string, string>, keys: set<string>) {
    Matches(body, keys, {}) && body != map[]
  }

  /** `value.k` of a validated body: the string when the key was given,
      undefined (None) otherwise. */
  function Get(body: map<string, string>, k: string): (o: Option<string>)
    ensures o.Some? <==> k in body
    ensures o.Some? ==> o.value == body[k]
  {
    if k in body then Some(body[k]) else None
  }

  /** The validation loop of a bulk insert: every item is checked in turn,
      the first failure ends the request, and otherwise the validated items
      are the items themselves. */
  method ValidateEach(items: seq<map<string, string>>, keys: set<string>, required: set<string>)
    returns (validated: Option<seq<map<string, string>>>)
    ensures validated.Some? <==> forall i :: 0 <= i < |items| ==> Matches(items[i], keys, required)
    ensures validated.Some? ==> validated.value == items
  {
    var values := [];
    for i := 0 to |items|
      invariant values == items[..i]
      invariant forall j :: 0 <= j < i ==> Matches(items[j], keys, required)
    {
      if !Matches(items[i], keys, required) {
        return None;
      }
      values := values + [items[i]];
    }
    return Some(values);
  }
}
