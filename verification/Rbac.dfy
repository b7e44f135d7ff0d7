/** The RBAC and organization tables as a value, the constraints the database enforces, and the decision read from them. */
module Rbac {
  import opened Common

  datatype Role = Role(name: string, organization: Option<Uuid>)

  datatype Permission = Permission(resource: string, action: string)

  /** A user_roles row: no organization means the assignment applies everywhere. */
  datatype Assignment = Assignment(user: Uuid, role: Uuid, organization: Option<Uuid>)

  datatype Membership = Membership(user: Uuid, organization: Uuid)

  /** Users map to their active flag, organizations to their name; association rows have keys of their own. */
  datatype Db = Db(
    users: map<Uuid, bool>,
    organizations: map<Uuid, string>,
    roles: map<Uuid, Role>,
    permissions: map<Uuid, Permission>,
    rolePermissions: set<(Uuid, Uuid)>,
    userRoles: map<Uuid, Assignment>,
    memberships: map<Uuid, Membership>)

  // ---------------------------------------------------------------- constraints

  predicate Exists(db: Db, organization: Option<Uuid>) {
    organization.Some? ==> organization.value in db.organizations
  }

  predicate NameTaken(db: Db, name: string) {
    exists r | r in db.roles :: db.roles[r].name == name
  }

  predicate Assigned(db: Db, a: Assignment) {
    exists id | id in db.userRoles :: db.userRoles[id] == a
  }

  predicate IsMember(db: Db, user: Uuid, organization: Uuid) {
    exists id | id in db.memberships :: db.memberships[id] == Membership(user, organization)
  }

  /** The inserts that raise no IntegrityError. */
  predicate RoleInsertable(db: Db, role: Role) {
    !NameTaken(db, role.name) && Exists(db, role.organization)
  }

  predicate AssignmentInsertable(db: Db, a: Assignment) {
    !Assigned(db, a) && a.user in db.users && a.role in db.roles && Exists(db, a.organization)
  }

  predicate RolePermissionInsertable(db: Db, role: Uuid, permission: Uuid) {
    (role, permission) !in db.rolePermissions && role in db.roles && permission in db.permissions
  }

  predicate MembershipInsertable(db: Db, m: Membership) {
    !IsMember(db, m.user, m.organization) && m.user in db.users && m.organization in db.organizations
  }

  predicate OrganizationInsertable(db: Db, name: string) {
    forall o | o in db.organizations :: db.organizations[o] != name
  }

  ghost predicate ForeignKeys(db: Db) {
    && (forall r | r in db.roles :: Exists(db, db.roles[r].organization))
    && (forall rp | rp in db.rolePermissions :: rp.0 in db.roles && rp.1 in db.permissions)
    && (forall id | id in db.userRoles ::
          && db.userRoles[id].user in db.users
          && db.userRoles[id].role in db.roles
          && Exists(db, db.userRoles[id].organization))
    && (forall id | id in db.memberships ::
          db.memberships[id].user in db.users && db.memberships[id].organization in db.organizations)
  }

  ghost predicate OneRowEach<T(!new)>(rows: map<Uuid, T>) {
    forall i, j | i in rows && j in rows && rows[i] == rows[j] :: i == j
  }

  /** The unique indexes; for user_roles the two partial ones together. */
  ghost predicate Unique(db: Db) {
    && (forall q, r | q in db.roles && r in db.roles && db.roles[q].name == db.roles[r].name :: q == r)
    && OneRowEach(db.organizations) && OneRowEach(db.userRoles) && OneRowEach(db.memberships)
  }

  /** Every constraint the schema declares. */
  ghost predicate Declared(db: Db) {
    ForeignKeys(db) && Unique(db)
  }

  /** The unique index of the catalog, which no request writes to. */
  ghost predicate CatalogUnique(catalog: map<Uuid, Permission>) {
    forall p, q | p in catalog && q in catalog && catalog[p] == catalog[q] :: p == q
  }

  /** Not a database constraint: an assignment of an organization's own role carries that organization. */
  ghost predicate ScopesAgree(db: Db) {
    forall id | id in db.userRoles && db.userRoles[id].role in db.roles ::
      var role := db.roles[db.userRoles[id].role];
      role.organization.Some? ==> db.userRoles[id].organization == role.organization
  }

  ghost predicate Consistent(db: Db) {
    ForeignKeys(db) && Unique(db) && ScopesAgree(db)
  }

  predicate Unused(db: Db, id: Uuid) {
    && id !in db.users && id !in db.organizations && id !in db.roles && id !in db.permissions
    && id !in db.userRoles && id !in db.memberships
  }

  // ---------------------------------------------------------------- what an IntegrityError means

  lemma SecondRow<T(!new)>(rows: map<Uuid, T>, newId: Uuid, row: T)
    requires OneRowEach(rows) && newId !in rows
    ensures OneRowEach(rows[newId := row]) <==> forall id | id in rows :: rows[id] != row
  {
    var rows' := rows[newId := row];
    if OneRowEach(rows') {
      forall id | id in rows ensures rows[id] != row {
        assert rows'[id] == rows[id] && rows'[newId] == row;
      }
    }
  }

  lemma SecondName(roles: map<Uuid, Role>, newId: Uuid, role: Role)
    requires newId !in roles
    requires forall q, r | q in roles && r in roles && roles[q].name == roles[r].name :: q == r
    ensures var roles' := roles[newId := role];
      (forall q, r | q in roles' && r in roles' && roles'[q].name == roles'[r].name :: q == r)
      <==> forall r | r in roles :: roles[r].name != role.name
  {
    var roles' := roles[newId := role];
    if forall q, r | q in roles' && r in roles' && roles'[q].name == roles'[r].name :: q == r {
      forall r | r in roles ensures roles[r].name != role.name {
        assert roles'[r] == roles[r] && roles'[newId] == role;
      }
    }
  }

  /** A role can be inserted exactly when the table with the new row satisfies every declared constraint. */
  lemma RoleInsertedExactly(db: Db, newId: Uuid, role: Role)
    requires Declared(db) && newId !in db.roles
    ensures Declared(db.(roles := db.roles[newId := role])) <==> RoleInsertable(db, role)
  {
    var db' := db.(roles := db.roles[newId := role]);
    SecondName(db.roles, newId, role);
    assert db'.roles[newId] == role;
    assert ForeignKeys(db') <==> Exists(db, role.organization);
  }

  lemma AssignmentInsertedExactly(db: Db, newId: Uuid, a: Assignment)
    requires Declared(db) && newId !in db.userRoles
    ensures Declared(db.(userRoles := db.userRoles[newId := a])) <==> AssignmentInsertable(db, a)
  {
    var db' := db.(userRoles := db.userRoles[newId := a]);
    SecondRow(db.userRoles, newId, a);
    assert db'.userRoles[newId] == a;
    assert ForeignKeys(db') <==> a.user in db.users && a.role in db.roles && Exists(db, a.organization);
  }

  lemma MembershipInsertedExactly(db: Db, newId: Uuid, m: Membership)
    requires Declared(db) && newId !in db.memberships
    ensures Declared(db.(memberships := db.memberships[newId := m])) <==> MembershipInsertable(db, m)
  {
    var db' := db.(memberships := db.memberships[newId := m]);
    SecondRow(db.memberships, newId, m);
    assert db'.memberships[newId] == m;
    assert ForeignKeys(db') <==> m.user in db.users && m.organization in db.organizations;
  }

  lemma OrganizationInsertedExactly(db: Db, newId: Uuid, name: string)
    requires Declared(db) && newId !in db.organizations
    ensures Declared(db.(organizations := db.organizations[newId := name])) <==> OrganizationInsertable(db, name)
  {
    SecondRow(db.organizations, newId, name);
    assert ForeignKeys(db.(organizations := db.organizations[newId := name]));
  }

  /** The pair is the primary key, so a second row for it cannot be stored; the foreign keys decide otherwise. */
  lemma RolePermissionInsertedExactly(db: Db, role: Uuid, permission: Uuid)
    requires Declared(db)
    ensures (role, permission) !in db.rolePermissions && Declared(db.(rolePermissions := db.rolePermissions + {(role, permission)}))
       <==> RolePermissionInsertable(db, role, permission)
  {
    var db' := db.(rolePermissions := db.rolePermissions + {(role, permission)});
    assert (role, permission) in db'.rolePermissions;
  }

  // ---------------------------------------------------------------- the decision

  /** Global rows always match; a row scoped to the organization asked about matches as well. */
  predicate InScope(scope: Option<Uuid>, asked: Option<Uuid>) {
    scope.None? || (asked.Some? && scope == asked)
  }

  /** The join of user_roles, role_permissions and permissions. */
  function PermissionsForUser(db: Db, user: Uuid, asked: Option<Uuid>): set<Uuid> {
    set id, p |
      && id in db.userRoles && p in db.permissions
      && db.userRoles[id].user == user
      && InScope(db.userRoles[id].organization, asked)
      && (db.userRoles[id].role, p) in db.rolePermissions
      :: p
  }

  /** Where a permission comes from: an assignment of the user, global or within the organization asked about. */
  lemma GrantedExactly(db: Db, user: Uuid, asked: Option<Uuid>, p: Uuid)
    ensures p in PermissionsForUser(db, user, asked) <==>
      && p in db.permissions
      && exists id ::
           && id in db.userRoles && db.userRoles[id].user == user
           && (db.userRoles[id].organization == None || db.userRoles[id].organization == asked)
           && (db.userRoles[id].role, p) in db.rolePermissions
  {
  }

  /** Deny by default: an unknown or inactive user, or a pair that nothing grants, is refused. */
  predicate Authorize(db: Db, user: Uuid, resource: string, action: string, asked: Option<Uuid>) {
    && user in db.users && db.users[user]
    && exists p | p in PermissionsForUser(db, user, asked) :: db.permissions[p] == Permission(resource, action)
  }

  /** What a decision depends on: nothing outside these columns can change it. */
  lemma SameGrantsSameDecision(db: Db, db': Db, user: Uuid, asked: Option<Uuid>)
    requires PermissionsForUser(db, user, asked) == PermissionsForUser(db', user, asked)
    requires db.permissions == db'.permissions
    requires (user in db.users && db.users[user]) <==> (user in db'.users && db'.users[user])
    ensures forall resource, action ::
      Authorize(db, user, resource, action, asked) <==> Authorize(db', user, resource, action, asked)
  {
  }

  /** What the rows scoped to one organization grant. */
  function ScopedPermissions(db: Db, user: Uuid, organization: Uuid): set<Uuid> {
    set id, p |
      && id in db.userRoles && p in db.permissions
      && db.userRoles[id].user == user && db.userRoles[id].organization == Some(organization)
      && (db.userRoles[id].role, p) in db.rolePermissions
      :: p
  }

  /** Naming an organization only ever adds the permissions of the rows scoped to it. */
  lemma ScopedExtendsGlobal(db: Db, user: Uuid, organization: Uuid)
    ensures PermissionsForUser(db, user, Some(organization))
         == PermissionsForUser(db, user, None) + ScopedPermissions(db, user, organization)
  {
  }
}
