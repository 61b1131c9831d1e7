/**
 * The two evaluators of the permissions library: `checkPermission`, which
 * decides whether a list of roles grants a permission, and `findRoles`,
 * which lists the roles that grant it. Glob matching is delegated: every
 * function takes the matcher `m` as a parameter, and every lemma holds for
 * any matcher.
 */
module Permissionary {
  import opened Sequences
  import opened Grants

  /** `micromatch.isMatch(permission, pattern)`, seen as a relation from pattern to permission. */
  type Matcher = (Pattern, Permission) -> bool

  /** `micromatch.any(permission, patterns)`: some pattern of the list matches. */
  function AnyMatch(m: Matcher, permission: Permission, patterns: seq<Pattern>): (matched: bool)
    ensures matched <==> exists i :: 0 <= i < |patterns| && m(patterns[i], permission)
  {
    if patterns == [] then false
    else m(patterns[0], permission) || AnyMatch(m, permission, patterns[1..])
  }

  /** Matching against a concatenation is matching against either part. */
  lemma AnyMatchAppend(m: Matcher, permission: Permission, a: seq<Pattern>, b: seq<Pattern>)
    ensures AnyMatch(m, permission, a + b) <==> AnyMatch(m, permission, a) || AnyMatch(m, permission, b)
  {
    if AnyMatch(m, permission, a + b) {
      var i :| 0 <= i < |a + b| && m((a + b)[i], permission);
      if i >= |a| {
        assert b[i - |a|] == (a + b)[i];
      }
    }
    if AnyMatch(m, permission, a) {
      var i :| 0 <= i < |a| && m(a[i], permission);
      assert (a + b)[i] == a[i];
    }
    if AnyMatch(m, permission, b) {
      var i :| 0 <= i < |b| && m(b[i], permission);
      assert (a + b)[|a| + i] == b[i];
    }
  }

  // ---------------------------------------------------------------------------
  // checkPermission
  // ---------------------------------------------------------------------------

  /** What one step of the reducer appends for role `r`: its patterns when it is an own key, nothing otherwise. */
  function Contribution(g: Table, r: Role): seq<Pattern> {
    if HasRole(g, r) then Lookup(g, r) else []
  }

  /** `roles.reduce(step, acc)`: the left fold that builds the effective pattern list. */
  function Reduce(g: Table, acc: seq<Pattern>, roles: seq<Role>): seq<Pattern>
    decreases |roles|
  {
    if roles == [] then acc
    else Reduce(g, acc + Contribution(g, roles[0]), roles[1..])
  }

  /** Reference definition of the effective pattern list: the contributions of the roles, concatenated in role order. */
  function Granted(g: Table, roles: seq<Role>): seq<Pattern> {
    if roles == [] then [] else Contribution(g, roles[0]) + Granted(g, roles[1..])
  }

  /** The left fold started from `acc` appends the reference list to `acc`. */
  lemma {:induction false} ReduceAppendsGranted(g: Table, acc: seq<Pattern>, roles: seq<Role>)
    ensures Reduce(g, acc, roles) == acc + Granted(g, roles)
    decreases |roles|
  {
    if roles != [] {
      ReduceAppendsGranted(g, acc + Contribution(g, roles[0]), roles[1..]);
      assert (acc + Contribution(g, roles[0])) + Granted(g, roles[1..])
          == acc + (Contribution(g, roles[0]) + Granted(g, roles[1..]));
    }
  }

  /** The effective pattern list built at index.js:100-103, starting from `[]`. */
  function EffectivePatterns(g: Table, roles: seq<Role>): (patterns: seq<Pattern>)
    ensures patterns == Granted(g, roles)
  {
    ReduceAppendsGranted(g, [], roles);
    assert [] + Granted(g, roles) == Granted(g, roles);
    Reduce(g, [], roles)
  }

  /** The effective list of a role list split in two is the concatenation of the two lists' effective lists. */
  lemma {:induction false} EffectiveAppend(g: Table, r1: seq<Role>, r2: seq<Role>)
    ensures EffectivePatterns(g, r1 + r2) == EffectivePatterns(g, r1) + EffectivePatterns(g, r2)
  {
    if r1 != [] {
      assert (r1 + r2)[0] == r1[0];
      assert (r1 + r2)[1..] == r1[1..] + r2;
      EffectiveAppend(g, r1[1..], r2);
    } else {
      assert r1 + r2 == r2;
    }
  }

  /** The effective list of one role is its patterns when it is an own key of the grants, and empty otherwise. */
  lemma EffectiveSingle(g: Table, r: Role)
    ensures HasRole(g, r) ==> EffectivePatterns(g, [r]) == Lookup(g, r)
    ensures !HasRole(g, r) ==> EffectivePatterns(g, [r]) == []
  {
    assert [r][1..] == [];
    assert Granted(g, [r]) == Contribution(g, r) + Granted(g, []);
    assert Contribution(g, r) + [] == Contribution(g, r);
  }

  /** A pattern is effective exactly when some listed role is an own key and has that pattern. */
  lemma {:induction false} EffectiveMembers(g: Table, roles: seq<Role>, pattern: Pattern)
    ensures pattern in EffectivePatterns(g, roles) <==>
            exists i :: 0 <= i < |roles| && HasRole(g, roles[i]) && pattern in Lookup(g, roles[i])
  {
    if roles != [] {
      EffectiveMembers(g, roles[1..], pattern);
      if pattern in EffectivePatterns(g, roles[1..]) {
        var i :| 0 <= i < |roles[1..]| && HasRole(g, roles[1..][i]) && pattern in Lookup(g, roles[1..][i]);
        assert roles[i + 1] == roles[1..][i];
      }
      if exists i :: 0 <= i < |roles| && HasRole(g, roles[i]) && pattern in Lookup(g, roles[i]) {
        var i :| 0 <= i < |roles| && HasRole(g, roles[i]) && pattern in Lookup(g, roles[i]);
        if i > 0 {
          assert roles[1..][i - 1] == roles[i];
        }
      }
    }
  }

  /** Role `r` is an own key of the grants and one of its patterns matches the permission. */
  predicate RoleGrants(m: Matcher, g: Table, r: Role, permission: Permission) {
    HasRole(g, r) && AnyMatch(m, permission, Lookup(g, r))
  }

  /** Some pattern in the effective list of `roles` matches exactly when some listed role grants the permission. */
  lemma {:induction false} AnyEffectiveMatch(m: Matcher, g: Table, roles: seq<Role>, permission: Permission)
    ensures AnyMatch(m, permission, Granted(g, roles)) <==>
            exists i :: 0 <= i < |roles| && RoleGrants(m, g, roles[i], permission)
  {
    if roles != [] {
      AnyMatchAppend(m, permission, Contribution(g, roles[0]), Granted(g, roles[1..]));
      AnyEffectiveMatch(m, g, roles[1..], permission);
      if exists i :: 0 <= i < |roles[1..]| && RoleGrants(m, g, roles[1..][i], permission) {
        var i :| 0 <= i < |roles[1..]| && RoleGrants(m, g, roles[1..][i], permission);
        assert roles[i + 1] == roles[1..][i];
      }
      if exists i :: 0 <= i < |roles| && RoleGrants(m, g, roles[i], permission) {
        var i :| 0 <= i < |roles| && RoleGrants(m, g, roles[i], permission);
        if i > 0 {
          assert roles[1..][i - 1] == roles[i];
        }
      }
    }
  }

  /**
   * `checkPermission(grants, roles, permission)`: the permission matches a
   * pattern of the effective list, that is, some listed role that is an own
   * key of the grants has a matching pattern. Unknown roles, an empty role
   * list and an empty effective list all give false.
   */
  function CheckPermission(m: Matcher, g: Table, roles: seq<Role>, permission: Permission): (granted: bool)
    ensures granted <==> exists i :: 0 <= i < |roles| && RoleGrants(m, g, roles[i], permission)
    ensures EffectivePatterns(g, roles) == [] ==> !granted
  {
    AnyEffectiveMatch(m, g, roles, permission);
    AnyMatch(m, permission, EffectivePatterns(g, roles))
  }

  /** A single role grants a permission exactly when it is an own key with a matching pattern. */
  lemma CheckOneRole(m: Matcher, g: Table, r: Role, permission: Permission)
    ensures CheckPermission(m, g, [r], permission) == RoleGrants(m, g, r, permission)
  {
    assert [r][0] == r;
  }

  /** Two roles grant a permission exactly when one of them does. */
  lemma CheckTwoRoles(m: Matcher, g: Table, r1: Role, r2: Role, permission: Permission)
    ensures CheckPermission(m, g, [r1, r2], permission) == (RoleGrants(m, g, r1, permission) || RoleGrants(m, g, r2, permission))
  {
    assert [r1, r2][0] == r1 && [r1, r2][1] == r2;
  }

  /** Holding more roles never takes a permission away. */
  lemma Monotonic(m: Matcher, g: Table, roles: seq<Role>, more: seq<Role>, permission: Permission)
    requires forall r :: r in roles ==> r in more
    requires CheckPermission(m, g, roles, permission)
    ensures CheckPermission(m, g, more, permission)
  {
    var i :| 0 <= i < |roles| && RoleGrants(m, g, roles[i], permission);
    assert roles[i] in more;
    var j :| 0 <= j < |more| && more[j] == roles[i];
  }

  /** A role name that is not an own key of the grants, inserted anywhere, changes neither the effective list nor the answer. */
  lemma UnknownRoleInert(m: Matcher, g: Table, before: seq<Role>, unknown: Role, after: seq<Role>, permission: Permission)
    requires !HasRole(g, unknown)
    ensures EffectivePatterns(g, before + [unknown] + after) == EffectivePatterns(g, before + after)
    ensures CheckPermission(m, g, before + [unknown] + after, permission) == CheckPermission(m, g, before + after, permission)
  {
    EffectiveAppend(g, before + [unknown], after);
    EffectiveAppend(g, before, [unknown]);
    EffectiveSingle(g, unknown);
    EffectiveAppend(g, before, after);
  }

  // Partial application (index.js:96-98 and 109).

  /** `checkPermission(grants, roles)`: the verifier closes over the effective list, computed once at binding. */
  function Verifier(m: Matcher, g: Table, roles: seq<Role>): (verify: Permission -> bool)
    ensures forall permission :: verify(permission) == CheckPermission(m, g, roles, permission)
  {
    var patterns := EffectivePatterns(g, roles);
    permission => AnyMatch(m, permission, patterns)
  }

  /** `checkPermission(grants)` applied later to roles and a permission. */
  function BindGrants(m: Matcher, g: Table): (seq<Role>, Permission) -> bool {
    (roles, permission) => CheckPermission(m, g, roles, permission)
  }

  /** `checkPermission(grants)` applied later to roles alone, which yields a verifier. */
  function BindGrantsThenRoles(m: Matcher, g: Table): (createVerifier: seq<Role> -> (Permission -> bool))
    ensures forall roles, permission :: createVerifier(roles)(permission) == CheckPermission(m, g, roles, permission)
  {
    roles => Verifier(m, g, roles)
  }

  /** Every way of supplying the three arguments gives the same answer. */
  lemma PartialApplicationAgrees(m: Matcher, g: Table, roles: seq<Role>, permission: Permission)
    ensures BindGrants(m, g)(roles, permission) == CheckPermission(m, g, roles, permission)
    ensures Verifier(m, g, roles)(permission) == CheckPermission(m, g, roles, permission)
    ensures BindGrantsThenRoles(m, g)(roles)(permission) == CheckPermission(m, g, roles, permission)
  {
  }

  // ---------------------------------------------------------------------------
  // findRoles
  // ---------------------------------------------------------------------------

  /** `keys.filter(role => micromatch.any(permission, grants[role]))`. */
  function Select(m: Matcher, g: Table, keys: seq<Role>, permission: Permission): (found: seq<Role>)
    requires forall i :: 0 <= i < |keys| ==> HasRole(g, keys[i])
    ensures IsSubsequence(found, keys)
    ensures forall r :: r in found <==> r in keys && RoleGrants(m, g, r, permission)
    ensures Distinct(keys) ==> Distinct(found)
  {
    if keys == [] then []
    else
      var rest := Select(m, g, keys[1..], permission);
      if AnyMatch(m, permission, Lookup(g, keys[0])) then
        assert ([keys[0]] + rest)[1..] == rest;
        assert Distinct(keys) ==> keys[0] !in keys[1..];
        assert Distinct(keys) ==> Distinct(keys[1..]) by {
          if Distinct(keys) {
            forall i, j | 0 <= i < j < |keys[1..]| ensures keys[1..][i] != keys[1..][j] {
              assert keys[1..][i] == keys[i + 1] && keys[1..][j] == keys[j + 1];
            }
          }
        }
        [keys[0]] + rest
      else
        rest
  }

  /**
   * `findRoles(grants, permission)`: the keys of the grants, in key order,
   * whose pattern list matches the permission. A role is listed exactly when
   * it grants the permission, so a role with no patterns never is; with
   * distinct keys no role is listed twice.
   */
  function FindRoles(m: Matcher, g: Table, permission: Permission): (found: seq<Role>)
    ensures IsSubsequence(found, Keys(g))
    ensures forall r :: r in found <==> RoleGrants(m, g, r, permission)
    ensures DistinctRoles(g) ==> Distinct(found)
  {
    Select(m, g, Keys(g), permission)
  }

  /**
   * With distinct keys, `findRoles` is the only list of roles that is a
   * subsequence of the keys and lists exactly those keys that grant the
   * permission.
   */
  lemma FindRolesUnique(m: Matcher, g: Table, permission: Permission, roles: seq<Role>)
    requires DistinctRoles(g)
    requires IsSubsequence(roles, Keys(g))
    requires forall i :: 0 <= i < |g| ==> (Keys(g)[i] in roles <==> RoleGrants(m, g, Keys(g)[i], permission))
    ensures FindRoles(m, g, permission) == roles
  {
    var found := FindRoles(m, g, permission);
    forall r ensures r in found <==> r in roles {
      if r in roles {
        SubsequenceMembers(roles, Keys(g), r);
      }
      if r in Keys(g) {
        var i :| 0 <= i < |Keys(g)| && Keys(g)[i] == r;
      }
    }
    SubsequenceDeterminedByMembers(found, roles, Keys(g));
  }

  /** Filtering the same keys against two tables that agree on them gives the same roles. */
  lemma {:induction false} SelectAgrees(m: Matcher, g: Table, h: Table, keys: seq<Role>, permission: Permission)
    requires forall i :: 0 <= i < |keys| ==> HasRole(g, keys[i]) && HasRole(h, keys[i]) && Lookup(g, keys[i]) == Lookup(h, keys[i])
    ensures Select(m, g, keys, permission) == Select(m, h, keys, permission)
  {
    if keys != [] {
      SelectAgrees(m, g, h, keys[1..], permission);
    }
  }

  /**
   * `findRoles` visits the entries in key order: on a table whose first key
   * does not occur again, it lists that key first when its patterns match,
   * then the roles the rest of the table grants.
   */
  lemma FindRolesFirstEntry(m: Matcher, e: Entry, rest: Table, permission: Permission)
    requires !HasRole(rest, e.role)
    ensures FindRoles(m, [e] + rest, permission) ==
            (if AnyMatch(m, permission, e.patterns) then [e.role] else []) + FindRoles(m, rest, permission)
  {
    var g := [e] + rest;
    assert g[0] == e && g[1..] == rest;
    assert Keys(g) == [e.role] + Keys(rest);
    assert Keys(g)[1..] == Keys(rest);
    forall i | 0 <= i < |Keys(rest)|
      ensures HasRole(g, Keys(rest)[i]) && HasRole(rest, Keys(rest)[i]) && Lookup(g, Keys(rest)[i]) == Lookup(rest, Keys(rest)[i])
    {
      assert Keys(rest)[i] != e.role;
    }
    SelectAgrees(m, g, rest, Keys(rest), permission);
  }

  /** `findRoles(grants)` applied later to a permission. */
  function RoleFinder(m: Matcher, g: Table): Permission -> seq<Role> {
    permission => FindRoles(m, g, permission)
  }

  /** The bound role finder answers as the two-argument call does. */
  lemma RoleFinderAgrees(m: Matcher, g: Table, permission: Permission)
    ensures RoleFinder(m, g)(permission) == FindRoles(m, g, permission)
  {
  }

  /** A role with an empty pattern list is never found. */
  lemma EmptyRoleNeverFound(m: Matcher, g: Table, r: Role, permission: Permission)
    requires HasRole(g, r) && Lookup(g, r) == []
    ensures r !in FindRoles(m, g, permission)
  {
  }

  /** The two evaluators agree: a role list grants a permission exactly when it holds one of the roles that `findRoles` lists for it. */
  lemma CheckAgreesWithFind(m: Matcher, g: Table, roles: seq<Role>, permission: Permission)
    ensures CheckPermission(m, g, roles, permission) <==>
            exists r :: r in FindRoles(m, g, permission) && r in roles
  {
    var found := FindRoles(m, g, permission);
    if CheckPermission(m, g, roles, permission) {
      var i :| 0 <= i < |roles| && RoleGrants(m, g, roles[i], permission);
      assert roles[i] in found && roles[i] in roles;
    }
    if exists r :: r in found && r in roles {
      var r :| r in found && r in roles;
      var i :| 0 <= i < |roles| && roles[i] == r;
      assert RoleGrants(m, g, roles[i], permission);
    }
  }
}
