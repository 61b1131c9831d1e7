# Permissionary in Dafny

A model of permissionary, a small JavaScript library for role-based permissions, with proofs about it. Roles group glob patterns that grant permissions. The library composes roles; it has no inheritance. It has two evaluators over a *grants table*, a string map from role names to arrays of glob patterns:

- `checkPermission(grants, roles, permission)` walks `roles` in order. For every role that is an own key of the grants, it concatenates that role's patterns into an *effective pattern list*. It then answers whether any pattern of that list matches the permission. It can be partially applied to the grants alone, or to the grants and the roles.
- `findRoles(grants, permission)` returns the grants' keys, in key order, whose pattern list matches the permission. It can be partially applied to the grants.

Both evaluators are pure, so the model is made of functions and lemmas.

- **`Grants`** holds the table: a sequence of entries `Entry(role, patterns)` in the order `Object.keys` lists them.
  - `HasRole` is the `hasOwnProperty` test: membership among the keys. An inherited name such as `toString` is therefore never a role.
  - `Lookup` is `grants[r]`.
- **`Permissionary`** holds the two evaluators.
  - Glob matching belongs to micromatch, so it is a parameter `m: (Pattern, Permission) -> bool` of every function. Every lemma about the evaluators holds for any matcher.
  - The `reduce` of `checkPermission` is modelled as the left fold it is (`Reduce`). It is proved equal to a right-fold reference definition (`Granted`).
  - `findRoles` is modelled as the filter over the keys (`Select`).
  - Each curried form is a function that returns a closure, proved to agree with the full call.
- **`Wildcard`** holds a star-only matcher that stands in for micromatch on the library's own examples. A `*` matches any run of characters without a path separator `/`, as micromatch's `*` does apart from its dotfile rule. Every other character matches itself. Like micromatch, it matches no pattern against the empty string.
- **`Scenarios`** holds the test table (test/index.js:15-19) and the documentation table (index.js:69-73).
  - Each expectation is first proved for any matcher, in terms of that matcher's verdicts on the individual patterns.
  - It is then instantiated with `Wildcard.Match`.
- **`Sequences`** holds the generic notions: distinctness, subsequence and emptiness.

## Model

| member | source | states |
|---|---|---|
| Grants.Keys | index.js:140 | `Object.keys(grants)` lists one role name per entry, position by position. |
| Grants.HasRole | index.js:101 | Definition: `hasProp.call(grants, r)` (bound at index.js:48) is membership of `r` among the table's keys. |
| Grants.RoleIndex | index.js:101 | For an own key, the position of the first entry with that name: no earlier entry has it. |
| Grants.Lookup | index.js:101 | `grants[r]` for an own key is the pattern list of the first entry named `r`. |
| Grants.LookupEntry | index.js:141 | With distinct keys, every entry's role is an own key, and `grants[role]` is that entry's pattern list. |
| Permissionary.AnyMatch | index.js:105-107 | `micromatch.any` is true exactly when some pattern of the list matches the permission. |
| Permissionary.AnyMatchAppend | index.js:101-106 | Matching against a concatenation of pattern lists is matching against either list. |
| Permissionary.Contribution | index.js:101-102 | Definition: the reducer's step appends `grants[r]` to the accumulator when `r` is an own key, and leaves the accumulator unchanged otherwise. |
| Permissionary.Reduce | index.js:100-103 | Definition: `roles.reduce(step, acc)` applies the step to the accumulator and the roles from left to right. |
| Permissionary.ReduceAppendsGranted | index.js:100-103 | The reduce started from any accumulator appends to it the in-order concatenation of the known roles' patterns. |
| Permissionary.EffectivePatterns | index.js:100-103 | The effective list is the in-order concatenation of `grants[r]` over the listed roles that are own keys, duplicates kept. Unknown roles contribute nothing. |
| Permissionary.EffectiveAppend | index.js:100-103 | The effective list of `r1 + r2` is the effective list of `r1` followed by that of `r2`. |
| Permissionary.EffectiveSingle | index.js:101-102 | One role contributes its patterns when it is an own key, and nothing otherwise. |
| Permissionary.EffectiveMembers | index.js:100-103 | A pattern is in the effective list exactly when some listed own-key role has that pattern. |
| Permissionary.AnyEffectiveMatch | index.js:100-107 | Some effective pattern matches exactly when some listed role is an own key with a matching pattern. |
| Permissionary.CheckPermission | index.js:94-111 | The answer is true exactly when some listed role is an own key with a matching pattern. An empty effective list, and therefore an empty role list, gives false. |
| Permissionary.CheckOneRole | index.js:100-107 | A single role grants exactly what its own patterns match, and nothing when it is no own key. |
| Permissionary.CheckTwoRoles | index.js:100-107 | Two roles grant a permission exactly when one of them does. |
| Permissionary.Monotonic | index.js:100-107 | A role list that contains every role of a granting list also grants. |
| Permissionary.UnknownRoleInert | index.js:100-103 | A name that is no own key, inserted anywhere in the role list, changes neither the effective list nor the answer. |
| Permissionary.Verifier | index.js:105-109 | `hasPermission` closes over the reduced list. For every permission it answers as `checkPermission(g, R, p)` does. |
| Permissionary.BindGrants | index.js:96-98 | Definition: `checkPermission.bind(this, grants)` applied to roles and a permission is the three-argument call. |
| Permissionary.BindGrantsThenRoles | index.js:96-98 | `checkPermission(g)` applied to roles alone yields a verifier that, for every permission, answers as `checkPermission(g, R, p)` does. |
| Permissionary.PartialApplicationAgrees | index.js:96-109 | `checkPermission(g)(R, p)`, `checkPermission(g, R)(p)`, `checkPermission(g)(R)(p)` and `checkPermission(g, R, p)` agree. |
| Permissionary.Select | index.js:140-142 | The filter keeps a subsequence of the keys: exactly the keys whose patterns match. Distinct keys give a list without repeats. |
| Permissionary.FindRoles | index.js:135-143 | Its result is a subsequence of the keys in key order. A role is listed exactly when it is an own key with a matching pattern. With distinct keys, no role is listed twice. |
| Permissionary.FindRolesUnique | index.js:140-142 | With distinct keys, the result is the only subsequence of the keys that holds exactly the granting keys. |
| Permissionary.SelectAgrees | index.js:140-142 | The filter depends only on the pattern lists of the keys it visits. |
| Permissionary.FindRolesFirstEntry | index.js:140-142 | The keys are visited in order: the first key is listed first when it matches, followed by the roles the rest of the table grants. |
| Permissionary.RoleFinder | index.js:136-138 | Definition: `findRoles.bind(this, grants)` applied to a permission is the two-argument call. |
| Permissionary.RoleFinderAgrees | index.js:136-138 | `findRoles(g)(p)` equals `findRoles(g, p)`. |
| Permissionary.EmptyRoleNeverFound | index.js:140-142 | A role with an empty pattern list is never listed. |
| Permissionary.CheckAgreesWithFind | index.js:94-143 | `checkPermission(g, R, p)` holds exactly when `R` holds some role that `findRoles(g, p)` lists. |
| Sequences.SubsequenceMembers | index.js:140 | Every element of a subsequence occurs in the sequence it is taken from. |
| Sequences.SubsequenceSkipsAbsentHead | index.js:140 | A head that does not occur in a subsequence can be dropped from the sequence it is taken from. |
| Sequences.SubsequenceKeepsPresentHead | index.js:140 | From a sequence without repeats, a subsequence that holds the head starts with it. |
| Sequences.SubsequenceDeterminedByMembers | index.js:140 | From a sequence without repeats, a subsequence is determined by its set of elements. |
| Wildcard.Glob | index.js:106 | Definition: a `*` consumes any run of characters other than `/`; every other pattern character consumes itself; the whole string must be consumed. |
| Wildcard.Match | index.js:106 | Definition: the stand-in for micromatch's test of one pattern: the glob match on a non-empty string. |
| Wildcard.StarGlob | index.js:89-92 | The lone star globs exactly the strings without a path separator, the empty one included. |
| Wildcard.LiteralGlob | index.js:106 | A pattern without stars globs only itself. |
| Wildcard.PrefixStarGlob | test/index.js:16-17 | `prefix*` globs exactly the strings that extend the prefix with no path separator after it. |
| Wildcard.EmptyNeverMatches | index.js:106 | No pattern, not even the star, matches the empty string. |
| Wildcard.StarMatches | index.js:89-92 | The lone star matches exactly the non-empty strings without a path separator. |
| Wildcard.LiteralMatches | index.js:106 | A pattern without stars matches only itself, and the empty pattern matches nothing. |
| Wildcard.PrefixStarMatches | test/index.js:16-17 | `prefix*` matches exactly the non-empty strings that extend the prefix with no path separator after it. |
| Wildcard.StarAccepts | index.js:89-92 | The lone star accepts every non-empty string without a path separator. |
| Wildcard.LiteralAccepts | index.js:106 | A non-empty pattern without stars accepts itself. |
| Wildcard.LiteralRejects | index.js:106 | A pattern without stars rejects every other string. |
| Wildcard.FirstCharRejects | index.js:106 | A pattern that starts with a character other than a star rejects a string that starts differently. |
| Wildcard.PrefixStarAccepts | test/index.js:16-17 | `prefix*` accepts an extension of the prefix without a path separator. |
| Wildcard.PrefixStarRejects | test/index.js:16-17 | `prefix*` rejects a string that does not extend the prefix. |
| Scenarios.StarRoleGrantsEverything | index.js:89-92 | An own-key role granted `*` is listed by `findRoles`, and passes `checkPermission` for every role list holding it, for every non-empty permission without a path separator. |
| Scenarios.EmptyPermissionDenied | index.js:105-107 | The empty permission is granted by no role list, and `findRoles` lists no role for it, whatever the table. |
| Scenarios.AnyMatchOne | index.js:105-107 | A one-pattern list matches what its pattern matches. |
| Scenarios.AnyMatchTwo | index.js:105-107 | A two-pattern list matches what either pattern matches. |
| Scenarios.FindRolesOne | index.js:140-142 | On a one-entry table, the role is listed exactly when its patterns match. |
| Scenarios.FindRolesTwo | index.js:140-142 | On a two-entry table with distinct roles, the matching roles are listed in table order. |
| Scenarios.FindRolesThree | index.js:140-142 | On a three-entry table with distinct roles, the matching roles are listed in table order. |
| Scenarios.MockKeys | test/index.js:15-19 | The test table's keys are `editor`, `viewer`, `admin`, all different. Neither `nonsense` nor `toString` is among them. |
| Scenarios.MockRoles | test/index.js:15-19 | On the test table, each role grants what its own pattern list matches, and `nonsense` and `toString` grant nothing, for any matcher. |
| Scenarios.MockFindRolesOrder | test/index.js:68-73 | On the test table, `findRoles` lists the matching roles among editor, viewer and admin in that order, for any matcher. |
| Scenarios.MockExpectations | test/index.js:37-73 | Every expectation of the test suite about one permission follows from the matcher's verdicts on the six patterns of the test table, for any matcher. |
| Scenarios.ImageUploadNotView | test/index.js:39 | `image.upload` matches no viewer pattern. |
| Scenarios.ImageUploadVerdicts | test/index.js:39-40 | `image.upload` matches an editor pattern, no viewer pattern, and the star. |
| Scenarios.ImageViewVerdicts | test/index.js:51 | `image.view` matches no editor pattern, a viewer pattern, and the star. |
| Scenarios.ContentViewNotEdit | test/index.js:42-43 | No permission under `content.view.` matches an editor pattern. |
| Scenarios.ContentViewIsView | test/index.js:42-43 | Every permission under `content.view.` without a path separator matches `content.view.*`. |
| Scenarios.ContentViewVerdicts | test/index.js:42-43 | Every permission under `content.view.` without a path separator matches a viewer pattern and the star, and no editor pattern. |
| Scenarios.UnlistedVerdicts | test/index.js:46 | `unlisted.nonsense` matches only the star. |
| Scenarios.MockImageUpload | test/index.js:39-52 | For `image.upload`, the bound verifier denies the viewer and `nonsense`, and grants the editor, the admin, viewer with editor, and nonsense with editor. The bound role finder lists editor and admin (test/index.js:70). |
| Scenarios.MockImageView | test/index.js:51 | The viewer and the editor together may `image.view`. |
| Scenarios.MockContentView | test/index.js:42-43 | A viewer may view any content without a path separator in its name. |
| Scenarios.MockContentViewRoles | test/index.js:71-72 | The roles that may view any such content are the viewer and the admin, in key order. |
| Scenarios.MockUnlisted | test/index.js:46 | The admin has `unlisted.nonsense`, and the role finder lists only the admin for it (test/index.js:73). |
| Scenarios.MockToString | test/index.js:54 | The inherited name `toString` grants nothing, for any permission and any matcher. |
| Scenarios.DocRoles | index.js:69-73 | On the documentation table, each role grants what its own pattern list matches, for any matcher. |
| Scenarios.DocFindRolesOrder | index.js:126-130 | On the documentation table, `findRoles` lists the matching roles among content-reader, content-writer and superadmin in that order, for any matcher. |
| Scenarios.DocExpectations | index.js:76-92 | Bob's and Alice's verifiers, and the role finder, follow from the matcher's verdicts on the documentation patterns, for any matcher. |
| Scenarios.ContentReadVerdicts | index.js:82-83 | `content.read` matches a reader pattern and the star, and no writer pattern. |
| Scenarios.UsersCreateVerdicts | index.js:86-87 | `users.create` matches only the star. |
| Scenarios.DocBob | index.js:76-87 | Bob's verifier, bound once, grants `content.read` and denies `users.create`. |
| Scenarios.DocAlice | index.js:89-92 | Alice's verifier grants `users.create`. |
| Scenarios.DocRequiredRoles | index.js:132-133 | The roles that grant `content.read` are `content-reader` and `superadmin`, in that order. |

## Left out

- Glob matching is micromatch's, a foreign library. The evaluators take the matcher as a parameter. `Wildcard.Match` knows only literals and `*`. It has no `?`, `**`, character classes, braces, negation or dotfile rules.
- Scenarios.StarRoleGrantsEverything: it holds only for non-empty permissions without a path separator. Like micromatch's `*`, the `Wildcard` star does not cross `/`, and micromatch matches nothing against the empty string (Scenarios.EmptyPermissionDenied). "Every permission" holds for the dotted permission names the library uses, such as `unlisted.nonsense`.
- Scenarios.MockContentView and Scenarios.MockContentViewRoles cover the permissions under `content.view.` without a path separator, which include the test's `content.view.one` and `content.view.two`.
- How JavaScript curries: `arguments.length`, `Function.prototype.bind` and `this`. Each partial application is a function that returns a closure. How many arguments are supplied is a choice of which function to call.
- The `typeof` and `length` assertions at test/index.js:23-35 and 60-66 are runtime reflection on JavaScript functions. They have no counterpart here.
- Grants.Lookup: a table that repeats a role name stands for no JavaScript object, whose keys are unique. `Lookup` then takes the first entry with that name, where an object literal would keep the last value written. The lemmas that need it assume distinct keys (`DistinctRoles`).
- Prototype-chain property lookup is left out. The table holds only own keys, so `hasOwnProperty` becomes membership among the keys.
- Grants.HasRole: the model assumes every own key is enumerable, as it is on object literals and on `JSON.parse` output. `hasOwnProperty` also sees non-enumerable own properties, which `Object.keys` skips. On an object with such a property, `checkPermission` could grant through a role that `findRoles` never lists, and Permissionary.CheckAgreesWithFind would not hold.
- Values of the grants map that are not arrays of strings are left out, because the table's type rules them out.
- Malformed glob patterns, such as `[` or the empty pattern, are ordinary `Pattern` values. The matcher `m` is a total function to `bool`, so the model assumes micromatch never fails on a pattern. An error that micromatch raises has no counterpart, and cannot be told apart from `false`. `Wildcard.Match` reads `[` as a literal character and matches nothing with the empty pattern.
- `Keys` keeps any order it is given. The model does not reproduce JavaScript's rule that integer-like keys are enumerated first, in ascending order.
- examples/express.js is not part of this model. It is an HTTP server that reads the grants from a file; it is I/O around the library.
