/** The permission query with its DISTINCT and ORDER BY, and the decision as the service computes it from the result. */
module PermissionQuery {
  import opened Common
  import opened Rbac

  /** Code point order of strings. */
  predicate Less(a: string, b: string) {
    b != [] && (a == [] || a[0] < b[0] || (a[0] == b[0] && Less(a[1..], b[1..])))
  }

  /** Two strings compare at their first difference, and a proper prefix comes first. */
  lemma {:induction false} LessExactly(a: string, b: string)
    ensures Less(a, b) <==> exists k :: 0 <= k <= |a| && k < |b| && a[..k] == b[..k] && (k == |a| || a[k] < b[k])
  {
    if a != [] && b != [] && a[0] == b[0] {
      LessExactly(a[1..], b[1..]);
      if Less(a[1..], b[1..]) {
        var k :| 0 <= k <= |a[1..]| && k < |b[1..]| && a[1..][..k] == b[1..][..k] && (k == |a[1..]| || a[1..][k] < b[1..][k]);
        assert a[..k + 1] == [a[0]] + a[1..][..k] && b[..k + 1] == [b[0]] + b[1..][..k];
      }
      if k :| 0 <= k <= |a| && k < |b| && a[..k] == b[..k] && (k == |a| || a[k] < b[k]) {
        assert k > 0;
        assert a[1..][..k - 1] == a[..k][1..] && b[1..][..k - 1] == b[..k][1..];
      }
    } else if b != [] {
      assert a[..0] == b[..0];
      forall k | 0 < k <= |a| && k < |b| ensures a[..k] != b[..k] {
        assert a[..k][0] == a[0] && b[..k][0] == b[0];
      }
    }
  }

  /** ORDER BY resource, action. */
  predicate Before(p: Permission, q: Permission) {
    Less(p.resource, q.resource) || (p.resource == q.resource && Less(p.action, q.action))
  }

  lemma {:induction false} LessTransitive(a: string, b: string, c: string)
    requires Less(a, b) && Less(b, c)
    ensures Less(a, c)
  {
    if a != [] && a[0] == b[0] && b[0] == c[0] {
      LessTransitive(a[1..], b[1..], c[1..]);
    }
  }

  lemma {:induction false} LessTotal(a: string, b: string)
    ensures Less(a, b) || a == b || Less(b, a)
    ensures !(Less(a, b) && Less(b, a)) && !Less(a, a)
    decreases |a|
  {
    if a != [] {
      if b != [] && a[0] == b[0] {
        LessTotal(a[1..], b[1..]);
        assert a == [a[0]] + a[1..] && b == [b[0]] + b[1..];
      }
      LessTotal(a[1..], a[1..]);
    }
  }

  lemma BeforeTransitive(p: Permission, q: Permission, r: Permission)
    requires Before(p, q) && Before(q, r)
    ensures Before(p, r)
  {
    if Less(p.resource, q.resource) && Less(q.resource, r.resource) {
      LessTransitive(p.resource, q.resource, r.resource);
    } else if p.resource == q.resource && q.resource == r.resource {
      LessTransitive(p.action, q.action, r.action);
    }
  }

  lemma BeforeTotal(p: Permission, q: Permission)
    ensures Before(p, q) || p == q || Before(q, p)
    ensures !Before(p, p) && !(Before(p, q) && Before(q, p))
  {
    LessTotal(p.resource, q.resource);
    LessTotal(p.action, q.action);
    LessTotal(p.resource, p.resource);
    LessTotal(p.action, p.action);
  }

  ghost predicate Least(s: set<Permission>, p: Permission) {
    p in s && forall q | q in s && q != p :: Before(p, q)
  }

  lemma {:induction false} LeastExists(s: set<Permission>) returns (p: Permission)
    requires s != {}
    ensures Least(s, p)
  {
    p :| p in s;
    if s != {p} {
      var q := LeastExists(s - {p});
      BeforeTotal(p, q);
      if Before(q, p) {
        p := q;
      } else {
        forall r | r in s && r != p ensures Before(p, r) {
          if r != q { BeforeTransitive(p, q, r); }
        }
      }
    }
  }

  /** A set in order. */
  ghost function Ordered(s: set<Permission>): seq<Permission> {
    if s == {} then []
    else
      assert exists p :: Least(s, p) by { var p := LeastExists(s); }
      var p :| Least(s, p);
      [p] + Ordered(s - {p})
  }

  ghost predicate InOrder(xs: seq<Permission>) {
    forall i, j | 0 <= i < j < |xs| :: Before(xs[i], xs[j])
  }

  lemma {:induction false} OrderedIsSorted(s: set<Permission>)
    ensures |Ordered(s)| == |s|
    ensures forall p :: p in Ordered(s) <==> p in s
    ensures InOrder(Ordered(s))
  {
    if s != {} {
      assert exists p :: Least(s, p) by { var p := LeastExists(s); }
      var p :| Least(s, p) && Ordered(s) == [p] + Ordered(s - {p});
      OrderedIsSorted(s - {p});
      forall i, j | 0 <= i < j < |Ordered(s)| ensures Before(Ordered(s)[i], Ordered(s)[j]) {
        if i == 0 {
          assert Ordered(s)[j] in Ordered(s - {p});
        }
      }
    }
  }

  lemma HasMember<T(!new)>(xs: seq<T>)
    ensures xs == [] || exists x :: x in xs
  {
    if xs != [] {
      assert xs[0] in xs;
    }
  }

  /** Two results that are strictly ordered and hold the same permissions are the same list. */
  lemma {:induction false} OrderDetermines(a: seq<Permission>, b: seq<Permission>)
    requires forall p :: p in a <==> p in b
    requires InOrder(a) && InOrder(b)
    ensures a == b
  {
    if a != [] {
      assert a[0] in b;
      assert b[0] in a;
      BeforeTotal(a[0], b[0]);
      assert a[0] == b[0];
      forall p ensures p in a[1..] <==> p in b[1..] {
        BeforeTotal(a[0], a[0]);
        if p in a[1..] { assert p in a; assert Before(a[0], p); }
        if p in b[1..] { assert p in b; assert Before(b[0], p); }
      }
      OrderDetermines(a[1..], b[1..]);
    } else {
      HasMember(b);
    }
  }

  // ---------------------------------------------------------------- what the query means

  /** The permissions granted in scope, as the catalog describes them. */
  ghost function Granted(db: Db, user: Uuid, asked: Option<Uuid>): set<Permission> {
    set p | p in PermissionsForUser(db, user, asked) :: db.permissions[p]
  }

  /** The result the query should have: each granted permission once, in order. */
  ghost function QueryResult(db: Db, user: Uuid, asked: Option<Uuid>): seq<Permission> {
    Ordered(Granted(db, user, asked))
  }

  lemma OnePerRow(catalog: map<Uuid, Permission>, ids: set<Uuid>)
    requires CatalogUnique(catalog) && ids <= catalog.Keys
    ensures |set p | p in ids :: catalog[p]| == |ids|
    decreases |ids|
  {
    if ids != {} {
      var p :| p in ids;
      OnePerRow(catalog, ids - {p});
      assert (set q | q in ids :: catalog[q]) == (set q | q in ids - {p} :: catalog[q]) + {catalog[p]};
    }
  }

  /**
    The query returns every granted permission exactly once, strictly ordered by resource and action,
    and scanning it for the pair asked about is the decision.
   */
  lemma QueryIsExact(db: Db, user: Uuid, asked: Option<Uuid>, resource: string, action: string)
    requires CatalogUnique(db.permissions)
    ensures var result := QueryResult(db, user, asked);
      && |result| == |PermissionsForUser(db, user, asked)|
      && (forall i, j | 0 <= i < j < |result| ::
            || Less(result[i].resource, result[j].resource)
            || (result[i].resource == result[j].resource && Less(result[i].action, result[j].action)))
      && (forall p | p in PermissionsForUser(db, user, asked) :: db.permissions[p] in result)
      && (Authorize(db, user, resource, action, asked) <==>
            && user in db.users && db.users[user]
            && exists i :: 0 <= i < |result| && result[i].resource == resource && result[i].action == action)
  {
    var ids := PermissionsForUser(db, user, asked);
    var granted := Granted(db, user, asked);
    OrderedIsSorted(granted);
    OnePerRow(db.permissions, ids);
    var result := QueryResult(db, user, asked);
    if Permission(resource, action) in granted {
      assert Permission(resource, action) in result;
    }
    forall i | 0 <= i < |result| ensures result[i] in granted {
    }
  }

  /** Asking within an organization adds to the global result what the rows scoped to it grant, and nothing else. */
  lemma QueryExtendsGlobal(db: Db, user: Uuid, organization: Uuid)
    ensures var scoped := set p | p in ScopedPermissions(db, user, organization) :: db.permissions[p];
      && QueryResult(db, user, Some(organization)) == Ordered(Granted(db, user, None) + scoped)
      && forall p :: p in QueryResult(db, user, Some(organization)) <==> p in QueryResult(db, user, None) || p in scoped
  {
    var scoped := set p | p in ScopedPermissions(db, user, organization) :: db.permissions[p];
    ScopedExtendsGlobal(db, user, organization);
    assert Granted(db, user, Some(organization)) == Granted(db, user, None) + scoped;
    OrderedIsSorted(Granted(db, user, None));
    OrderedIsSorted(Granted(db, user, Some(organization)));
  }

  // ---------------------------------------------------------------- the query as a join

  /** The rows of a table, each once, in whatever order the database reads them. */
  ghost predicate Scans<T(!new)>(xs: seq<T>, rows: set<T>) {
    NoRepeat(xs) && forall x :: x in xs <==> x in rows
  }

  ghost predicate NoRepeat<T>(xs: seq<T>) {
    forall i, j | 0 <= i < j < |xs| :: xs[i] != xs[j]
  }

  /** One joined row: a row of user_roles, one of role_permissions and one of permissions. */
  datatype Match = Match(assignment: Uuid, pair: (Uuid, Uuid), permission: Uuid)

  /** The ON and WHERE conditions. */
  predicate Joins(db: Db, user: Uuid, asked: Option<Uuid>, m: Match) {
    && m.assignment in db.userRoles && m.pair in db.rolePermissions && m.permission in db.permissions
    && m.pair.1 == m.permission
    && db.userRoles[m.assignment].role == m.pair.0
    && db.userRoles[m.assignment].user == user
    && InScope(db.userRoles[m.assignment].organization, asked)
  }

  /** `rows` holds one joined row for every matching triple taken from these three lists. */
  ghost predicate Joined(db: Db, user: Uuid, asked: Option<Uuid>, rows: seq<Match>, ids: seq<Uuid>, pairs: seq<(Uuid, Uuid)>, permissions: seq<Uuid>) {
    && NoRepeat(rows)
    && forall m :: m in rows <==> Joins(db, user, asked, m) && m.assignment in ids && m.pair in pairs && m.permission in permissions
  }

  method JoinPermissions(db: Db, user: Uuid, asked: Option<Uuid>, id: Uuid, pair: (Uuid, Uuid), permissions: seq<Uuid>)
    returns (rows: seq<Match>)
    requires NoRepeat(permissions)
    ensures Joined(db, user, asked, rows, [id], [pair], permissions)
  {
    rows := [];
    for k := 0 to |permissions|
      invariant Joined(db, user, asked, rows, [id], [pair], permissions[..k])
    {
      assert permissions[..k + 1] == permissions[..k] + [permissions[k]];
      if Joins(db, user, asked, Match(id, pair, permissions[k])) {
        rows := rows + [Match(id, pair, permissions[k])];
      }
    }
    assert permissions[..|permissions|] == permissions;
  }

  method JoinPairs(db: Db, user: Uuid, asked: Option<Uuid>, id: Uuid, pairs: seq<(Uuid, Uuid)>, permissions: seq<Uuid>)
    returns (rows: seq<Match>)
    requires NoRepeat(pairs) && NoRepeat(permissions)
    ensures Joined(db, user, asked, rows, [id], pairs, permissions)
  {
    rows := [];
    for j := 0 to |pairs|
      invariant Joined(db, user, asked, rows, [id], pairs[..j], permissions)
    {
      var more := JoinPermissions(db, user, asked, id, pairs[j], permissions);
      assert pairs[..j + 1] == pairs[..j] + [pairs[j]];
      rows := rows + more;
    }
    assert pairs[..|pairs|] == pairs;
  }

  /** FROM and JOIN: every matching triple of rows exactly once, so a permission once for each assignment that grants it. */
  method Join(db: Db, user: Uuid, asked: Option<Uuid>, ids: seq<Uuid>, pairs: seq<(Uuid, Uuid)>, permissions: seq<Uuid>)
    returns (rows: seq<Match>)
    requires NoRepeat(ids) && NoRepeat(pairs) && NoRepeat(permissions)
    ensures Joined(db, user, asked, rows, ids, pairs, permissions)
  {
    rows := [];
    for i := 0 to |ids|
      invariant Joined(db, user, asked, rows, ids[..i], pairs, permissions)
    {
      var more := JoinPairs(db, user, asked, ids[i], pairs, permissions);
      assert ids[..i + 1] == ids[..i] + [ids[i]];
      rows := rows + more;
    }
    assert ids[..|ids|] == ids;
  }

  /** SELECT DISTINCT of the permission column. */
  function Distinct(rows: seq<Match>): seq<Uuid> {
    if rows == [] then []
    else
      var before, p := Distinct(rows[..|rows| - 1]), rows[|rows| - 1].permission;
      if p in before then before else before + [p]
  }

  lemma {:induction false} DistinctIsExact(rows: seq<Match>)
    ensures NoRepeat(Distinct(rows))
    ensures forall p :: p in Distinct(rows) <==> exists m :: m in rows && m.permission == p
  {
    if rows != [] {
      var front, last := rows[..|rows| - 1], rows[|rows| - 1];
      DistinctIsExact(front);
      assert rows == front + [last];
      forall p ensures p in Distinct(rows) <==> exists m :: m in rows && m.permission == p {
        if p == last.permission { assert last in rows; }
      }
    }
  }

  /** ORDER BY: each permission goes behind those that come before it. */
  function InPlace(sorted: seq<Permission>, p: Permission): seq<Permission> {
    if sorted == [] || Before(p, sorted[0]) then [p] + sorted
    else [sorted[0]] + InPlace(sorted[1..], p)
  }

  function Sorted(catalog: map<Uuid, Permission>, ids: seq<Uuid>): seq<Permission>
    requires forall p | p in ids :: p in catalog
  {
    if ids == [] then [] else InPlace(Sorted(catalog, ids[..|ids| - 1]), catalog[ids[|ids| - 1]])
  }

  lemma {:induction false} InPlaceIsExact(sorted: seq<Permission>, p: Permission)
    requires InOrder(sorted) && p !in sorted
    ensures InOrder(InPlace(sorted, p))
    ensures forall q :: q in InPlace(sorted, p) <==> q in sorted || q == p
  {
    if sorted != [] {
      BeforeTotal(p, sorted[0]);
      var rest := sorted[1..];
      if Before(p, sorted[0]) {
        forall j | 0 <= j < |sorted| ensures Before(p, sorted[j]) {
          if j > 0 { BeforeTransitive(p, sorted[0], sorted[j]); }
        }
      } else {
        InPlaceIsExact(rest, p);
        forall q | q in InPlace(rest, p) ensures Before(sorted[0], q) {
        }
      }
      assert sorted == [sorted[0]] + rest;
    }
  }

  lemma {:induction false} SortedIsExact(catalog: map<Uuid, Permission>, ids: seq<Uuid>)
    requires CatalogUnique(catalog) && NoRepeat(ids) && forall p | p in ids :: p in catalog
    ensures InOrder(Sorted(catalog, ids))
    ensures forall q :: q in Sorted(catalog, ids) <==> exists p :: p in ids && catalog[p] == q
  {
    if ids != [] {
      var front, last := ids[..|ids| - 1], ids[|ids| - 1];
      assert ids == front + [last];
      SortedIsExact(catalog, front);
      InPlaceIsExact(Sorted(catalog, front), catalog[last]);
    }
  }

  /**
    The whole query, in whatever order the three tables are read: a permission granted by several
    assignments is joined several times and returned once, at the one place the order leaves it.
   */
  method GetPermissionsForUser(db: Db, user: Uuid, asked: Option<Uuid>, ids: seq<Uuid>, pairs: seq<(Uuid, Uuid)>, permissions: seq<Uuid>)
    returns (result: seq<Permission>)
    requires CatalogUnique(db.permissions)
    requires Scans(ids, db.userRoles.Keys) && Scans(pairs, db.rolePermissions) && Scans(permissions, db.permissions.Keys)
    ensures result == QueryResult(db, user, asked)
  {
    var rows := Join(db, user, asked, ids, pairs, permissions);
    DistinctIsExact(rows);
    JoinIsPermissionsForUser(db, user, asked, rows, ids, pairs, permissions);
    result := Sorted(db.permissions, Distinct(rows));
    SortedIsExact(db.permissions, Distinct(rows));
    OrderedIsSorted(Granted(db, user, asked));
    OrderDetermines(result, QueryResult(db, user, asked));
  }

  /** The permission column of the join is the set definition of what is granted. */
  lemma JoinIsPermissionsForUser(db: Db, user: Uuid, asked: Option<Uuid>, rows: seq<Match>, ids: seq<Uuid>, pairs: seq<(Uuid, Uuid)>, permissions: seq<Uuid>)
    requires Scans(ids, db.userRoles.Keys) && Scans(pairs, db.rolePermissions) && Scans(permissions, db.permissions.Keys)
    requires Joined(db, user, asked, rows, ids, pairs, permissions)
    ensures forall p :: (exists m :: m in rows && m.permission == p) <==> p in PermissionsForUser(db, user, asked)
  {
    forall p | p in PermissionsForUser(db, user, asked) ensures exists m :: m in rows && m.permission == p {
      var id :| id in db.userRoles && db.userRoles[id].user == user
        && InScope(db.userRoles[id].organization, asked) && (db.userRoles[id].role, p) in db.rolePermissions;
      assert Match(id, (db.userRoles[id].role, p), p) in rows;
    }
  }

  /** Why the query needs its DISTINCT: a permission is joined once for each assignment in scope that grants it. */
  lemma JoinedOncePerAssignment(db: Db, user: Uuid, asked: Option<Uuid>, rows: seq<Match>, ids: seq<Uuid>, pairs: seq<(Uuid, Uuid)>, permissions: seq<Uuid>, p: Uuid, id: Uuid)
    requires Scans(ids, db.userRoles.Keys) && Scans(pairs, db.rolePermissions) && Scans(permissions, db.permissions.Keys)
    requires Joined(db, user, asked, rows, ids, pairs, permissions)
    ensures var grants := p in db.permissions && id in db.userRoles && db.userRoles[id].user == user
                          && InScope(db.userRoles[id].organization, asked) && (db.userRoles[id].role, p) in db.rolePermissions;
      grants <==> exists i :: 0 <= i < |rows| && rows[i].assignment == id && rows[i].permission == p
    ensures forall i, j | 0 <= i < |rows| && 0 <= j < |rows|
              && rows[i].assignment == rows[j].assignment == id && rows[i].permission == rows[j].permission == p :: i == j
  {
    if p in db.permissions && id in db.userRoles && db.userRoles[id].user == user
       && InScope(db.userRoles[id].organization, asked) && (db.userRoles[id].role, p) in db.rolePermissions {
      assert Match(id, (db.userRoles[id].role, p), p) in rows;
    }
    forall i | 0 <= i < |rows| ensures Joins(db, user, asked, rows[i]) {
      assert rows[i] in rows;
    }
  }

  /** The decision of the service: an active user, and the pair asked about among the rows of the query. */
  method Decide(db: Db, user: Uuid, resource: string, action: string, asked: Option<Uuid>, ids: seq<Uuid>, pairs: seq<(Uuid, Uuid)>, permissions: seq<Uuid>)
    returns (allowed: bool)
    requires CatalogUnique(db.permissions)
    requires Scans(ids, db.userRoles.Keys) && Scans(pairs, db.rolePermissions) && Scans(permissions, db.permissions.Keys)
    ensures allowed == Authorize(db, user, resource, action, asked)
  {
    if user !in db.users || !db.users[user] {
      return false;
    }
    var result := GetPermissionsForUser(db, user, asked, ids, pairs, permissions);
    QueryIsExact(db, user, asked, resource, action);
    allowed := exists p | p in result :: p.resource == resource && p.action == action;
  }
}
