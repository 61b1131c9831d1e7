/**
 * The evaluators instantiated with the star-only matcher, and the concrete
 * tables of the library's test suite (test/index.js) and of its
 * documentation (index.js).
 */
module Scenarios {
  import opened Sequences
  import opened Grants
  import opened Permissionary
  import Wildcard

  /** A role granted the lone star passes every non-empty permission without a path separator and is listed by `findRoles` for it. */
  lemma StarRoleGrantsEverything(g: Table, r: Role, roles: seq<Role>, permission: Permission)
    requires HasRole(g, r) && "*" in Lookup(g, r) && r in roles
    requires permission != [] && '/' !in permission
    ensures r in FindRoles(Wildcard.Match, g, permission)
    ensures CheckPermission(Wildcard.Match, g, roles, permission)
  {
    Wildcard.StarMatches(permission);
    var k :| 0 <= k < |Lookup(g, r)| && Lookup(g, r)[k] == "*";
    assert RoleGrants(Wildcard.Match, g, r, permission);
    var i :| 0 <= i < |roles| && roles[i] == r;
  }

  /** The empty permission matches no pattern, so no role list has it and no role is listed for it, not even a star role. */
  lemma EmptyPermissionDenied(g: Table, roles: seq<Role>)
    ensures !CheckPermission(Wildcard.Match, g, roles, "")
    ensures FindRoles(Wildcard.Match, g, "") == []
  {
    EmptyIffNoMembers(FindRoles(Wildcard.Match, g, ""));
  }

  /** A one-pattern list matches what its pattern matches. */
  lemma AnyMatchOne(m: Matcher, p: Permission, a: Pattern)
    ensures AnyMatch(m, p, [a]) == m(a, p)
  {
    assert [a][1..] == [];
  }

  /** A two-pattern list matches what either of its patterns matches. */
  lemma AnyMatchTwo(m: Matcher, p: Permission, a: Pattern, b: Pattern)
    ensures AnyMatch(m, p, [a, b]) == (m(a, p) || m(b, p))
  {
    assert [a, b][1..] == [b];
    AnyMatchOne(m, p, b);
  }

  /** On a one-entry table, `findRoles` lists its role exactly when one of its patterns matches. */
  lemma FindRolesOne(m: Matcher, e: Entry, p: Permission)
    ensures FindRoles(m, [e], p) == (if AnyMatch(m, p, e.patterns) then [e.role] else [])
  {
    assert [e] + [] == [e];
    FindRolesFirstEntry(m, e, [], p);
  }

  /** On a two-entry table with distinct roles, `findRoles` tries them in order. */
  lemma FindRolesTwo(m: Matcher, e1: Entry, e2: Entry, p: Permission)
    requires e1.role != e2.role
    ensures FindRoles(m, [e1, e2], p) ==
            (if AnyMatch(m, p, e1.patterns) then [e1.role] else []) +
            (if AnyMatch(m, p, e2.patterns) then [e2.role] else [])
  {
    assert Keys([e2]) == [e2.role];
    assert [e1] + [e2] == [e1, e2];
    FindRolesFirstEntry(m, e1, [e2], p);
    FindRolesOne(m, e2, p);
  }

  /** On a three-entry table with distinct roles, `findRoles` tries them in order. */
  lemma FindRolesThree(m: Matcher, e1: Entry, e2: Entry, e3: Entry, p: Permission)
    requires e1.role != e2.role && e1.role != e3.role && e2.role != e3.role
    ensures FindRoles(m, [e1, e2, e3], p) ==
            (if AnyMatch(m, p, e1.patterns) then [e1.role] else []) +
            (if AnyMatch(m, p, e2.patterns) then [e2.role] else []) +
            (if AnyMatch(m, p, e3.patterns) then [e3.role] else [])
  {
    assert Keys([e2, e3]) == [e2.role, e3.role];
    assert [e1] + [e2, e3] == [e1, e2, e3];
    FindRolesFirstEntry(m, e1, [e2, e3], p);
    FindRolesTwo(m, e2, e3, p);
  }

  // ---------------------------------------------------------------------------
  // The table of test/index.js:15-19
  // ---------------------------------------------------------------------------

  function EditorPatterns(): seq<Pattern> { ["content.edit.*", "image.upload"] }
  function ViewerPatterns(): seq<Pattern> { ["content.view.*", "image.view"] }

  function MockGrants(): Table {
    [Entry("editor", EditorPatterns()), Entry("viewer", ViewerPatterns()), Entry("admin", ["*"])]
  }

  /** The keys of the test table are distinct and do not include `nonsense` or the inherited name `toString`. */
  lemma MockKeys()
    ensures Keys(MockGrants()) == ["editor", "viewer", "admin"]
    ensures DistinctRoles(MockGrants())
    ensures !HasRole(MockGrants(), "nonsense") && !HasRole(MockGrants(), "toString")
  {
    var keys := ["editor", "viewer", "admin"];
    assert Keys(MockGrants()) == keys;
    assert "editor"[0] != "viewer"[0] && "editor"[0] != "admin"[0] && "viewer"[0] != "admin"[0];
    assert "nonsense" !in keys by {
      assert forall i :: 0 <= i < |keys| ==> keys[i][0] != 'n';
    }
    assert "toString" !in keys by {
      assert forall i :: 0 <= i < |keys| ==> keys[i][0] != 't';
    }
  }

  /** On the test table, each role grants what its own patterns match, for any matcher. */
  lemma MockRoles(m: Matcher, p: Permission)
    ensures RoleGrants(m, MockGrants(), "editor", p) == AnyMatch(m, p, EditorPatterns())
    ensures RoleGrants(m, MockGrants(), "viewer", p) == AnyMatch(m, p, ViewerPatterns())
    ensures RoleGrants(m, MockGrants(), "admin", p) == AnyMatch(m, p, ["*"])
    ensures !RoleGrants(m, MockGrants(), "nonsense", p) && !RoleGrants(m, MockGrants(), "toString", p)
  {
    MockKeys();
    LookupEntry(MockGrants(), 0);
    LookupEntry(MockGrants(), 1);
    LookupEntry(MockGrants(), 2);
  }

  /** On the test table, `findRoles` tries the editor, the viewer and the admin, in that order, for any matcher. */
  lemma MockFindRolesOrder(m: Matcher, p: Permission)
    ensures FindRoles(m, MockGrants(), p) ==
            (if AnyMatch(m, p, EditorPatterns()) then ["editor"] else []) +
            (if AnyMatch(m, p, ViewerPatterns()) then ["viewer"] else []) +
            (if AnyMatch(m, p, ["*"]) then ["admin"] else [])
  {
    assert "editor"[0] != "viewer"[0] && "editor"[0] != "admin"[0] && "viewer"[0] != "admin"[0];
    FindRolesThree(m, Entry("editor", EditorPatterns()), Entry("viewer", ViewerPatterns()), Entry("admin", ["*"]), p);
  }

  /** How a matcher judges permission `p` against each pattern of the editor, the viewer and the admin. */
  predicate MockVerdicts(m: Matcher, p: Permission, editor: bool, viewer: bool, admin: bool) {
    (m("content.edit.*", p) || m("image.upload", p)) == editor &&
    (m("content.view.*", p) || m("image.view", p)) == viewer &&
    m("*", p) == admin
  }

  /**
   * Every expectation of test/index.js:37-73 about permission `p`, for any
   * matcher, in terms of that matcher's verdicts on the three pattern lists;
   * stated through the verifier and the role finder bound to the test table.
   */
  lemma MockExpectations(m: Matcher, p: Permission, editor: bool, viewer: bool, admin: bool)
    requires MockVerdicts(m, p, editor, viewer, admin)
    ensures BindGrants(m, MockGrants())(["editor"], p) == editor
    ensures BindGrants(m, MockGrants())(["viewer"], p) == viewer
    ensures BindGrants(m, MockGrants())(["admin"], p) == admin
    ensures !BindGrants(m, MockGrants())(["nonsense"], p)
    ensures !BindGrants(m, MockGrants())(["toString"], p)
    ensures BindGrants(m, MockGrants())(["viewer", "editor"], p) == (viewer || editor)
    ensures BindGrants(m, MockGrants())(["nonsense", "editor"], p) == editor
    ensures RoleFinder(m, MockGrants())(p) ==
            (if editor then ["editor"] else []) + (if viewer then ["viewer"] else []) + (if admin then ["admin"] else [])
  {
    var g := MockGrants();
    AnyMatchTwo(m, p, "content.edit.*", "image.upload");
    AnyMatchTwo(m, p, "content.view.*", "image.view");
    AnyMatchOne(m, p, "*");
    MockRoles(m, p);
    CheckOneRole(m, g, "editor", p);
    CheckOneRole(m, g, "viewer", p);
    CheckOneRole(m, g, "admin", p);
    CheckOneRole(m, g, "nonsense", p);
    CheckOneRole(m, g, "toString", p);
    CheckTwoRoles(m, g, "viewer", "editor", p);
    CheckTwoRoles(m, g, "nonsense", "editor", p);
    forall roles: seq<Role> ensures BindGrants(m, g)(roles, p) == CheckPermission(m, g, roles, p) {
      PartialApplicationAgrees(m, g, roles, p);
    }
    RoleFinderAgrees(m, g, p);
    MockFindRolesOrder(m, p);
  }

  /** `image.upload` matches no viewer pattern. */
  lemma ImageUploadNotView()
    ensures !Wildcard.Match("content.view.*", "image.upload") && !Wildcard.Match("image.view", "image.upload")
  {
    Wildcard.FirstCharRejects("content.view.*", "image.upload");
    Wildcard.LiteralRejects("image.view", "image.upload");
  }

  /** `image.upload` matches an editor pattern, no viewer pattern, and the star. */
  lemma ImageUploadVerdicts()
    ensures MockVerdicts(Wildcard.Match, "image.upload", true, false, true)
  {
    Wildcard.LiteralAccepts("image.upload");
    ImageUploadNotView();
    Wildcard.StarAccepts("image.upload");
  }

  /** `image.view` matches no editor pattern, a viewer pattern, and the star. */
  lemma ImageViewVerdicts()
    ensures MockVerdicts(Wildcard.Match, "image.view", false, true, true)
  {
    Wildcard.FirstCharRejects("content.edit.*", "image.view");
    Wildcard.LiteralRejects("image.upload", "image.view");
    Wildcard.LiteralAccepts("image.view");
    Wildcard.StarAccepts("image.view");
  }

  /** No permission under `content.view.` matches an editor pattern. */
  lemma ContentViewNotEdit(p: Permission)
    requires "content.view." <= p
    ensures !Wildcard.Match("content.edit.*", p) && !Wildcard.Match("image.upload", p)
  {
    assert p[8] == "content.view."[8] != "content.edit."[8];
    Wildcard.PrefixStarRejects("content.edit.", p);
    assert "content.edit." + "*" == "content.edit.*";
    Wildcard.FirstCharRejects("image.upload", p);
  }

  /** Every permission under `content.view.` without a path separator matches the viewer's star pattern. */
  lemma ContentViewIsView(p: Permission)
    requires "content.view." <= p && '/' !in p
    ensures Wildcard.Match("content.view.*", p)
  {
    assert p != [] by {
      assert |p| >= 13;
    }
    assert '/' !in p[13..] by {
      assert forall i :: 0 <= i < |p[13..]| ==> p[13..][i] == p[13 + i];
    }
    Wildcard.PrefixStarAccepts("content.view.", p);
    assert "content.view." + "*" == "content.view.*";
  }

  /** Every permission under `content.view.` without a path separator matches a viewer pattern and the star, and no editor pattern. */
  lemma ContentViewVerdicts(p: Permission)
    requires "content.view." <= p && '/' !in p
    ensures MockVerdicts(Wildcard.Match, p, false, true, true)
  {
    ContentViewNotEdit(p);
    ContentViewIsView(p);
    assert |p| >= 13;
    Wildcard.StarAccepts(p);
  }

  /** `unlisted.nonsense` matches only the star. */
  lemma UnlistedVerdicts()
    ensures MockVerdicts(Wildcard.Match, "unlisted.nonsense", false, false, true)
  {
    Wildcard.FirstCharRejects("content.edit.*", "unlisted.nonsense");
    Wildcard.FirstCharRejects("content.view.*", "unlisted.nonsense");
    Wildcard.FirstCharRejects("image.upload", "unlisted.nonsense");
    Wildcard.FirstCharRejects("image.view", "unlisted.nonsense");
    Wildcard.StarAccepts("unlisted.nonsense");
  }

  /** test/index.js:39-40, 45, 48, 50, 52 and 70: the expectations about `image.upload`. */
  lemma MockImageUpload()
    ensures !BindGrants(Wildcard.Match, MockGrants())(["viewer"], "image.upload")
    ensures BindGrants(Wildcard.Match, MockGrants())(["editor"], "image.upload")
    ensures BindGrants(Wildcard.Match, MockGrants())(["admin"], "image.upload")
    ensures !BindGrants(Wildcard.Match, MockGrants())(["nonsense"], "image.upload")
    ensures BindGrants(Wildcard.Match, MockGrants())(["viewer", "editor"], "image.upload")
    ensures BindGrants(Wildcard.Match, MockGrants())(["nonsense", "editor"], "image.upload")
    ensures RoleFinder(Wildcard.Match, MockGrants())("image.upload") == ["editor", "admin"]
  {
    ImageUploadVerdicts();
    MockExpectations(Wildcard.Match, "image.upload", true, false, true);
  }

  /** test/index.js:51: the viewer and the editor together may view images. */
  lemma MockImageView()
    ensures BindGrants(Wildcard.Match, MockGrants())(["viewer", "editor"], "image.view")
  {
    ImageViewVerdicts();
    MockExpectations(Wildcard.Match, "image.view", false, true, true);
  }

  /** test/index.js:42-43: a viewer may view any content. */
  lemma MockContentView(p: Permission)
    requires "content.view." <= p && '/' !in p
    ensures BindGrants(Wildcard.Match, MockGrants())(["viewer"], p)
  {
    ContentViewVerdicts(p);
    MockExpectations(Wildcard.Match, p, false, true, true);
  }

  /** test/index.js:71-72: the roles that may view any content are the viewer and the admin, in key order. */
  lemma MockContentViewRoles(p: Permission)
    requires "content.view." <= p && '/' !in p
    ensures RoleFinder(Wildcard.Match, MockGrants())(p) == ["viewer", "admin"]
  {
    ContentViewVerdicts(p);
    MockExpectations(Wildcard.Match, p, false, true, true);
  }

  /** test/index.js:46 and 73: a permission no table lists is granted to the admin, and to the admin alone. */
  lemma MockUnlisted()
    ensures BindGrants(Wildcard.Match, MockGrants())(["admin"], "unlisted.nonsense")
    ensures RoleFinder(Wildcard.Match, MockGrants())("unlisted.nonsense") == ["admin"]
  {
    UnlistedVerdicts();
    MockExpectations(Wildcard.Match, "unlisted.nonsense", false, false, true);
  }

  /** test/index.js:54: the inherited name `toString` is no role, whatever the permission and the matcher. */
  lemma MockToString(m: Matcher, p: Permission)
    ensures !BindGrants(m, MockGrants())(["toString"], p)
  {
    MockRoles(m, p);
    CheckOneRole(m, MockGrants(), "toString", p);
    PartialApplicationAgrees(m, MockGrants(), ["toString"], p);
  }

  // ---------------------------------------------------------------------------
  // The table of the documentation examples at index.js:69-73 and 126-130
  // ---------------------------------------------------------------------------

  function ReaderPatterns(): seq<Pattern> { ["content.read", "images.read"] }
  function WriterPatterns(): seq<Pattern> { ["content.write", "images.upload"] }

  function DocGrants(): Table {
    [Entry("content-reader", ReaderPatterns()), Entry("content-writer", WriterPatterns()), Entry("superadmin", ["*"])]
  }

  /** On the documentation table, each role grants what its own patterns match, for any matcher. */
  lemma DocRoles(m: Matcher, p: Permission)
    ensures RoleGrants(m, DocGrants(), "content-reader", p) == AnyMatch(m, p, ReaderPatterns())
    ensures RoleGrants(m, DocGrants(), "content-writer", p) == AnyMatch(m, p, WriterPatterns())
    ensures RoleGrants(m, DocGrants(), "superadmin", p) == AnyMatch(m, p, ["*"])
  {
    assert Keys(DocGrants()) == ["content-reader", "content-writer", "superadmin"];
    assert "content-reader"[8] != "content-writer"[8];
    assert "content-reader"[0] != "superadmin"[0] && "content-writer"[0] != "superadmin"[0];
    LookupEntry(DocGrants(), 0);
    LookupEntry(DocGrants(), 1);
    LookupEntry(DocGrants(), 2);
  }

  /** On the documentation table, `findRoles` tries the reader, the writer and the superadmin, in that order, for any matcher. */
  lemma DocFindRolesOrder(m: Matcher, p: Permission)
    ensures FindRoles(m, DocGrants(), p) ==
            (if AnyMatch(m, p, ReaderPatterns()) then ["content-reader"] else []) +
            (if AnyMatch(m, p, WriterPatterns()) then ["content-writer"] else []) +
            (if AnyMatch(m, p, ["*"]) then ["superadmin"] else [])
  {
    assert "content-reader"[8] != "content-writer"[8];
    assert "content-reader"[0] != "superadmin"[0] && "content-writer"[0] != "superadmin"[0];
    FindRolesThree(m, Entry("content-reader", ReaderPatterns()), Entry("content-writer", WriterPatterns()), Entry("superadmin", ["*"]), p);
  }

  /** How a matcher judges permission `p` against each pattern of the reader, the writer and the superadmin. */
  predicate DocVerdicts(m: Matcher, p: Permission, reader: bool, writer: bool, admin: bool) {
    (m("content.read", p) || m("images.read", p)) == reader &&
    (m("content.write", p) || m("images.upload", p)) == writer &&
    m("*", p) == admin
  }

  /**
   * The documented uses of index.js:76-92 and 126-133 for permission `p`, for
   * any matcher, in terms of its verdicts: Bob holds both content roles,
   * Alice is a superadmin, and the role finder lists the roles in key order.
   */
  lemma DocExpectations(m: Matcher, p: Permission, reader: bool, writer: bool, admin: bool)
    requires DocVerdicts(m, p, reader, writer, admin)
    ensures BindGrantsThenRoles(m, DocGrants())(["content-reader", "content-writer"])(p) == (reader || writer)
    ensures BindGrantsThenRoles(m, DocGrants())(["superadmin"])(p) == admin
    ensures RoleFinder(m, DocGrants())(p) ==
            (if reader then ["content-reader"] else []) + (if writer then ["content-writer"] else []) + (if admin then ["superadmin"] else [])
  {
    var g := DocGrants();
    AnyMatchTwo(m, p, "content.read", "images.read");
    AnyMatchTwo(m, p, "content.write", "images.upload");
    AnyMatchOne(m, p, "*");
    DocRoles(m, p);
    CheckTwoRoles(m, g, "content-reader", "content-writer", p);
    CheckOneRole(m, g, "superadmin", p);
    PartialApplicationAgrees(m, g, ["content-reader", "content-writer"], p);
    PartialApplicationAgrees(m, g, ["superadmin"], p);
    RoleFinderAgrees(m, g, p);
    DocFindRolesOrder(m, p);
  }

  /** `content.read` matches a reader pattern and the star, and no writer pattern. */
  lemma ContentReadVerdicts()
    ensures DocVerdicts(Wildcard.Match, "content.read", true, false, true)
  {
    Wildcard.LiteralAccepts("content.read");
    Wildcard.LiteralRejects("content.write", "content.read");
    Wildcard.FirstCharRejects("images.upload", "content.read");
    Wildcard.StarAccepts("content.read");
  }

  /** `users.create` matches only the star. */
  lemma UsersCreateVerdicts()
    ensures DocVerdicts(Wildcard.Match, "users.create", false, false, true)
  {
    Wildcard.FirstCharRejects("content.read", "users.create");
    Wildcard.FirstCharRejects("images.read", "users.create");
    Wildcard.FirstCharRejects("content.write", "users.create");
    Wildcard.FirstCharRejects("images.upload", "users.create");
    Wildcard.StarAccepts("users.create");
  }

  /** index.js:76-87: Bob's verifier, bound once, grants `content.read` and denies `users.create`. */
  lemma DocBob()
    ensures BindGrantsThenRoles(Wildcard.Match, DocGrants())(["content-reader", "content-writer"])("content.read")
    ensures !BindGrantsThenRoles(Wildcard.Match, DocGrants())(["content-reader", "content-writer"])("users.create")
  {
    ContentReadVerdicts();
    UsersCreateVerdicts();
    DocExpectations(Wildcard.Match, "content.read", true, false, true);
    DocExpectations(Wildcard.Match, "users.create", false, false, true);
  }

  /** index.js:79 and 89-92: Alice, a superadmin, has a permission nobody thought of. */
  lemma DocAlice()
    ensures BindGrantsThenRoles(Wildcard.Match, DocGrants())(["superadmin"])("users.create")
  {
    UsersCreateVerdicts();
    DocExpectations(Wildcard.Match, "users.create", false, false, true);
  }

  /** index.js:126-133: the roles that grant `content.read` are the content-reader and the superadmin, in key order. */
  lemma DocRequiredRoles()
    ensures RoleFinder(Wildcard.Match, DocGrants())("content.read") == ["content-reader", "superadmin"]
  {
    ContentReadVerdicts();
    DocExpectations(Wildcard.Match, "content.read", true, false, true);
  }
}
