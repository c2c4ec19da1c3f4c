/** `URLSearchParams` as its ordered list of name/value pairs (WHATWG URL
    Standard, section 6.2): `get` reads the first pair with the name, `set`
    overwrites the first pair and removes the others (or appends), `delete`
    removes every pair with the name. */
module SearchParams {
  import opened Wrappers

  datatype Param = Param(name: string, value: string)

  /** Position `i` holds the first pair named `name`. */
  predicate FirstNamed(params: seq<Param>, i: int, name: string) {
    && 0 <= i < |params| && params[i].name == name
    && forall j :: 0 <= j < i ==> params[j].name != name
  }

  /** `params.get(name)`: the value of the first pair named `name`. */
  function Get(params: seq<Param>, name: string): (r: Option<string>)
    ensures r.None? <==> forall i :: 0 <= i < |params| ==> params[i].name != name
    ensures r.Some? ==> exists i :: FirstNamed(params, i, name) && params[i].value == r.value
  {
    if params == [] then None
    else if params[0].name == name then Some(params[0].value)
    else
      var r := Get(params[1..], name);
      assert r.Some? ==> exists i :: FirstNamed(params, i, name) && params[i].value == r.value by {
        if r.Some? {
          var k :| FirstNamed(params[1..], k, name) && params[1..][k].value == r.value;
          forall j | 0 <= j < k + 1 ensures params[j].name != name {
            if j > 0 {
              assert params[j] == params[1..][j - 1];
            }
          }
          assert FirstNamed(params, k + 1, name);
        }
      }
      r
  }

  /** `params.delete(name)`. The contract keeps the other pairs and what `Get`
      reads from them, but not their order across different names: the model
      reads parameters only through `Get`, and the serialised query string is
      not part of it. */
  function Delete(params: seq<Param>, name: string): (r: seq<Param>)
    ensures forall i :: 0 <= i < |r| ==> r[i].name != name
    ensures forall p :: p in r <==> p in params && p.name != name
    ensures forall other :: other != name ==> Get(r, other) == Get(params, other)
  {
    if params == [] then []
    else if params[0].name == name then Delete(params[1..], name)
    else [params[0]] + Delete(params[1..], name)
  }

  /** `params.set(name, value)`. The new pair replaces the first pair with the
      name, or is appended when there is none; the contract does not say which
      position it takes, since only `Get` observes the list here. */
  function Set(params: seq<Param>, name: string, value: string): (r: seq<Param>)
    ensures Get(r, name) == Some(value)
    ensures Delete(r, name) == Delete(params, name)
    ensures forall other :: other != name ==> Get(r, other) == Get(params, other)
    ensures forall i, j :: 0 <= i < j < |r| && r[i].name == name ==> r[j].name != name
  {
    if params == [] then [Param(name, value)]
    else if params[0].name == name then
      DeleteIdempotent(params[1..], name);
      [Param(name, value)] + Delete(params[1..], name)
    else [params[0]] + Set(params[1..], name, value)
  }

  /** Deleting twice is deleting once. */
  lemma {:induction false} DeleteIdempotent(params: seq<Param>, name: string)
    ensures Delete(Delete(params, name), name) == Delete(params, name)
  {
    if params != [] {
      DeleteIdempotent(params[1..], name);
    }
  }
}
