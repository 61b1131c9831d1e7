/**
 * The grants table: a string map from role names to arrays of glob patterns,
 * as a JavaScript object with its own properties in key order.
 */
module Grants {
  import opened Sequences

  type Role = string
  type Pattern = string
  type Permission = string

  /** One own property of the grants object: a role name and its patterns. */
  datatype Entry = Entry(role: Role, patterns: seq<Pattern>)

  /** The grants object, as its own properties in the order `Object.keys` lists them. */
  type Table = seq<Entry>

  /** `Object.keys(grants)`: the role names, in key order. */
  function Keys(g: Table): (keys: seq<Role>)
    ensures |keys| == |g|
    ensures forall i :: 0 <= i < |g| ==> keys[i] == g[i].role
  {
    if g == [] then [] else [g[0].role] + Keys(g[1..])
  }

  /** `hasOwnProperty.call(grants, r)`: `r` is an own key; inherited names such as `toString` are not. */
  predicate HasRole(g: Table, r: Role) {
    r in Keys(g)
  }

  /** The keys of a JavaScript object are pairwise different. */
  predicate DistinctRoles(g: Table) {
    Distinct(Keys(g))
  }

  /** The position of the first entry named `r`. */
  function RoleIndex(g: Table, r: Role): (i: nat)
    requires HasRole(g, r)
    ensures i < |g| && g[i].role == r
    ensures forall j :: 0 <= j < i ==> g[j].role != r
  {
    if g[0].role == r then 0
    else
      assert Keys(g) == [g[0].role] + Keys(g[1..]);
      1 + RoleIndex(g[1..], r)
  }

  /** `grants[r]` for an own key `r`: the patterns of the first entry named `r`. */
  function Lookup(g: Table, r: Role): (patterns: seq<Pattern>)
    requires HasRole(g, r)
    ensures exists i :: 0 <= i < |g| && g[i] == Entry(r, patterns) && forall j :: 0 <= j < i ==> g[j].role != r
  {
    var i := RoleIndex(g, r);
    assert g[i] == Entry(r, g[i].patterns);
    g[i].patterns
  }

  /** In a table with distinct keys, `grants[r]` is the patterns of the one entry named `r`. */
  lemma LookupEntry(g: Table, i: nat)
    requires DistinctRoles(g) && i < |g|
    ensures HasRole(g, g[i].role) && Lookup(g, g[i].role) == g[i].patterns
  {
    assert Keys(g)[i] == g[i].role;
    var k :| 0 <= k < |g| && g[k] == Entry(g[i].role, Lookup(g, g[i].role)) && forall j :: 0 <= j < k ==> g[j].role != g[i].role;
    assert Keys(g)[k] == Keys(g)[i];
  }
}
