/**
 * src/core/user.rs: user identities, permissions with `*` wildcards matched
 * segment by segment on `:`, and the user context with its permission check.
 */
module User {
  import opened Wrappers
  import Text

  datatype UserId = UserId(id: string)
  datatype PlatformId = PlatformId(id: string)
  datatype PlatformUserId = PlatformUserId(id: string)

  /** A permission pattern such as "memo:create", "memo:*" or "*". */
  datatype Permission = Permission(pattern: string)

  const WILDCARD: string := "*"
  const SEPARATOR: char := ':'

  /** The loop of `matches` from segment `i` on: a `*` grants, a mismatch or a missing segment refuses. */
  function MatchFrom(ps: seq<string>, rs: seq<string>, i: nat): (r: bool)
    requires i <= |ps|
    ensures ps == rs ==> r
    decreases |ps| - i
  {
    if i == |ps| then true
    else if ps[i] == WILDCARD then true
    else if i >= |rs| || ps[i] != rs[i] then false
    else MatchFrom(ps, rs, i + 1)
  }

  /** `Permission::matches`. */
  predicate Matches(p: Permission, required: string): (r: bool)
    ensures p.pattern == WILDCARD ==> r
    ensures p.pattern == required ==> r
  {
    if p.pattern == WILDCARD then true
    else MatchFrom(Text.Split(p.pattern, SEPARATOR), Text.Split(required, SEPARATOR), 0)
  }

  /** The first `k` segments of both lists exist and are equal. */
  predicate Agrees(ps: seq<string>, rs: seq<string>, k: nat)
  {
    k <= |ps| && k <= |rs| && ps[..k] == rs[..k]
  }

  /** A `*` segment whose predecessors all equal the required ones (the required list may end right there). */
  predicate StarGrant(ps: seq<string>, rs: seq<string>)
  {
    exists k :: 0 <= k < |ps| && ps[k] == WILDCARD && Agrees(ps, rs, k)
  }

  /** Every segment of the pattern equals the required segment at the same place. */
  predicate PrefixGrant(ps: seq<string>, rs: seq<string>)
  {
    Agrees(ps, rs, |ps|)
  }

  lemma {:induction false} MatchFromIff(ps: seq<string>, rs: seq<string>, i: nat)
    requires i <= |ps| && Agrees(ps, rs, i)
    requires forall j :: 0 <= j < i ==> ps[j] != WILDCARD
    ensures MatchFrom(ps, rs, i) <==> StarGrant(ps, rs) || PrefixGrant(ps, rs)
    decreases |ps| - i
  {
    if i == |ps| {
    } else if ps[i] == WILDCARD {
      assert Agrees(ps, rs, i);
    } else if i >= |rs| || ps[i] != rs[i] {
      forall k | 0 <= k < |ps| && ps[k] == WILDCARD
        ensures !Agrees(ps, rs, k)
      {
        assert i < k;
        if i < |rs| && k <= |rs| {
          assert ps[..k][i] != rs[..k][i];
        }
      }
      if |ps| <= |rs| {
        assert ps[..|ps|][i] != rs[..|ps|][i];
      }
    } else {
      assert ps[..i + 1] == ps[..i] + [ps[i]];
      assert rs[..i + 1] == rs[..i] + [rs[i]];
      MatchFromIff(ps, rs, i + 1);
    }
  }

  /**
   * What `matches` decides, stated over the segments: the pattern grants
   * when a `*` follows segments that all agree, or when it is a
   * segment-wise prefix of the required permission.
   */
  lemma MatchesIff(p: Permission, required: string)
    ensures Matches(p, required) <==>
              StarGrant(Text.Split(p.pattern, SEPARATOR), Text.Split(required, SEPARATOR))
              || PrefixGrant(Text.Split(p.pattern, SEPARATOR), Text.Split(required, SEPARATOR))
  {
    var ps := Text.Split(p.pattern, SEPARATOR);
    var rs := Text.Split(required, SEPARATOR);
    if p.pattern == WILDCARD {
      Text.SplitJoin([WILDCARD], SEPARATOR);
      assert ps == [WILDCARD];
      assert Agrees(ps, rs, 0);
    } else {
      MatchFromIff(ps, rs, 0);
    }
  }

  /** "*" grants every permission. */
  lemma WildcardGrantsAll(required: string)
    ensures Matches(Permission(WILDCARD), required)
  {
  }

  /** "scope:*" grants the scope itself and everything under it ("memo:*" grants "memo" and "memo:create"). */
  lemma ScopeWildcard(scope: string, action: string)
    requires SEPARATOR !in scope && SEPARATOR !in action && scope != WILDCARD
    ensures Matches(Permission(scope + [SEPARATOR] + WILDCARD), scope)
    ensures Matches(Permission(scope + [SEPARATOR] + WILDCARD), scope + [SEPARATOR] + action)
  {
    var pattern := scope + [SEPARATOR] + WILDCARD;
    assert Text.Join([scope, WILDCARD], SEPARATOR) == pattern;
    Text.SplitJoin([scope, WILDCARD], SEPARATOR);
    assert Text.Join([scope], SEPARATOR) == scope;
    Text.SplitJoin([scope], SEPARATOR);
    assert Text.Join([scope, action], SEPARATOR) == scope + [SEPARATOR] + action;
    Text.SplitJoin([scope, action], SEPARATOR);
    assert pattern[|scope|] == SEPARATOR;
    MatchesIff(Permission(pattern), scope);
    MatchesIff(Permission(pattern), scope + [SEPARATOR] + action);
    assert Agrees([scope, WILDCARD], [scope], 1);
    assert Agrees([scope, WILDCARD], [scope, action], 1);
  }

  /** A pattern without wildcard grants itself and anything it is a segment prefix of ("memo" grants "memo:create"). */
  lemma PrefixPattern(scope: string, action: string)
    requires SEPARATOR !in scope && SEPARATOR !in action
    ensures Matches(Permission(scope), scope)
    ensures Matches(Permission(scope), scope + [SEPARATOR] + action)
  {
    assert Text.Join([scope], SEPARATOR) == scope;
    Text.SplitJoin([scope], SEPARATOR);
    assert Text.Join([scope, action], SEPARATOR) == scope + [SEPARATOR] + action;
    Text.SplitJoin([scope, action], SEPARATOR);
    if scope != WILDCARD {
      MatchesIff(Permission(scope), scope);
      MatchesIff(Permission(scope), scope + [SEPARATOR] + action);
      assert Agrees([scope], [scope], 1);
      assert Agrees([scope], [scope, action], 1);
    }
  }

  /** A single segment grants nothing but itself and what lies under it: "memo:create" does not grant "memo", and "memo" does not grant "todo". */
  lemma Refusals(a: string, b: string, c: string)
    requires SEPARATOR !in a && SEPARATOR !in b && SEPARATOR !in c
    requires a != WILDCARD && b != WILDCARD && a != c
    ensures !Matches(Permission(a + [SEPARATOR] + b), a)
    ensures !Matches(Permission(a), c)
  {
    var pattern := a + [SEPARATOR] + b;
    assert Text.Join([a, b], SEPARATOR) == pattern;
    Text.SplitJoin([a, b], SEPARATOR);
    assert Text.Join([a], SEPARATOR) == a;
    Text.SplitJoin([a], SEPARATOR);
    assert Text.Join([c], SEPARATOR) == c;
    Text.SplitJoin([c], SEPARATOR);
    assert pattern[|a|] == SEPARATOR;
    MatchesIff(Permission(pattern), a);
    MatchesIff(Permission(a), c);
    assert !Agrees([a], [c], 1) by { assert [a][..1][0] == a; }
  }

  datatype UserInfo = UserInfo(id: UserId, name: string, platform: PlatformId, platformUserId: PlatformUserId)

  /** The identity of a request and a snapshot of its roles and permissions. */
  datatype UserContext = UserContext(user: UserInfo, roles: seq<string>, permissions: set<Permission>, expiresAt: Option<int>)

  function NewContext(user: UserInfo): (c: UserContext)
    ensures c.user == user && c.roles == [] && c.permissions == {} && c.expiresAt.None?
  {
    UserContext(user, [], {}, None)
  }

  function WithPermission(c: UserContext, perm: string): (r: UserContext)
    ensures r.permissions == c.permissions + {Permission(perm)}
    ensures r.user == c.user && r.roles == c.roles && r.expiresAt == c.expiresAt
  {
    c.(permissions := c.permissions + {Permission(perm)})
  }

  function WithRole(c: UserContext, role: string): (r: UserContext)
    ensures r.roles == c.roles + [role]
    ensures r.user == c.user && r.permissions == c.permissions && r.expiresAt == c.expiresAt
  {
    c.(roles := c.roles + [role])
  }

  /** The hard-coded super-user roles. */
  predicate IsSuperuser(c: UserContext)
  {
    "admin" in c.roles || "root" in c.roles
  }

  /** `has_permission`. */
  predicate HasPermission(c: UserContext, required: string): (r: bool)
    ensures Permission(required) in c.permissions || Permission(WILDCARD) in c.permissions ==> r
    ensures !IsSuperuser(c) && c.permissions == {} ==> !r
  {
    IsSuperuser(c) || exists p :: p in c.permissions && Matches(p, required)
  }

  /** A fresh context holds nothing; a super-user holds everything. */
  lemma ContextBasics(user: UserInfo, c: UserContext, required: string)
    ensures !HasPermission(NewContext(user), required)
    ensures IsSuperuser(c) ==> HasPermission(c, required)
    ensures HasPermission(WithRole(c, "admin"), required) && HasPermission(WithRole(c, "root"), required)
  {
  }

  /**
   * The builders only ever add rights: a new permission adds exactly what it
   * matches, a new role adds everything if it is a super-user role and
   * nothing otherwise.
   */
  lemma BuildersGrant(c: UserContext, perm: string, role: string, required: string)
    ensures HasPermission(WithPermission(c, perm), required) <==> HasPermission(c, required) || Matches(Permission(perm), required)
    ensures HasPermission(WithRole(c, role), required) <==> HasPermission(c, required) || role == "admin" || role == "root"
  {
    if Matches(Permission(perm), required) {
      assert Permission(perm) in WithPermission(c, perm).permissions;
    }
  }
}
