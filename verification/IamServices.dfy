/** The repositories and services that change the RBAC and organization tables, statement by statement. */
module IamServices {
  import opened Common
  import opened Audit
  import opened Rbac
  import opened Requests
  import opened RbacTheorems

  /** Deleting what no row matches deletes nothing. */
  lemma NothingMatches<T(!new)>(rows: map<Uuid, T>, row: T)
    requires (set id | id in rows && rows[id] == row) == {}
    ensures forall id | id in rows :: rows[id] != row
    ensures rows == map id | id in rows && rows[id] != row :: rows[id]
  {
    var matching := set id | id in rows && rows[id] == row;
    forall id | id in rows ensures rows[id] != row {
      assert id !in matching;
    }
  }

  /** The tables, with the writes the repositories issue. A write that breaks a constraint is rolled back. */
  class Database {
    var users: map<Uuid, bool>
    var organizations: map<Uuid, string>
    var roles: map<Uuid, Role>
    const permissions: map<Uuid, Permission>
    var rolePermissions: set<(Uuid, Uuid)>
    var userRoles: map<Uuid, Assignment>
    var memberships: map<Uuid, Membership>

    function Snapshot(): Db
      reads this
    {
      Db(users, organizations, roles, permissions, rolePermissions, userRoles, memberships)
    }

    constructor (db: Db)
      ensures Snapshot() == db
    {
      users, organizations, roles, permissions := db.users, db.organizations, db.roles, db.permissions;
      rolePermissions, userRoles, memberships := db.rolePermissions, db.userRoles, db.memberships;
    }

    method InsertRole(newId: Uuid, role: Role) returns (ok: bool)
      requires Declared(Snapshot()) && newId !in roles
      modifies this
      ensures ok == old(RoleInsertable(Snapshot(), role))
      ensures ok <==> Declared(old(Snapshot()).(roles := old(roles)[newId := role]))
      ensures Snapshot() == if ok then old(Snapshot()).(roles := old(roles)[newId := role]) else old(Snapshot())
      ensures Declared(Snapshot())
    {
      RoleInsertedExactly(Snapshot(), newId, role);
      ok := RoleInsertable(Snapshot(), role);
      if ok {
        roles := roles[newId := role];
      }
    }

    method InsertUserRole(newId: Uuid, a: Assignment) returns (ok: bool)
      requires Declared(Snapshot()) && newId !in userRoles
      modifies this
      ensures ok == old(AssignmentInsertable(Snapshot(), a))
      ensures ok <==> Declared(old(Snapshot()).(userRoles := old(userRoles)[newId := a]))
      ensures Snapshot() == if ok then old(Snapshot()).(userRoles := old(userRoles)[newId := a]) else old(Snapshot())
      ensures Declared(Snapshot())
    {
      AssignmentInsertedExactly(Snapshot(), newId, a);
      ok := AssignmentInsertable(Snapshot(), a);
      if ok {
        userRoles := userRoles[newId := a];
      }
    }

    /** The exact-row lookup and deletion; the unique indexes make the row found the only one. */
    method DeleteUserRole(a: Assignment) returns (found: bool)
      requires Unique(Snapshot())
      modifies this
      ensures found == old(Assigned(Snapshot(), a))
      ensures !found ==> Snapshot() == old(Snapshot())
      ensures Snapshot() == old(Snapshot()).(
                userRoles := map id | id in old(userRoles) && old(userRoles)[id] != a :: old(userRoles)[id])
    {
      var matching := set id | id in userRoles && userRoles[id] == a;
      if matching == {} {
        NothingMatches(userRoles, a);
        return false;
      }
      var row :| row in matching;
      userRoles := map id | id in userRoles && id != row :: userRoles[id];
      found := true;
    }

    method InsertRolePermission(role: Uuid, permission: Uuid) returns (ok: bool)
      requires Declared(Snapshot())
      modifies this
      ensures ok == old(RolePermissionInsertable(Snapshot(), role, permission))
      ensures ok <==> (role, permission) !in old(rolePermissions) && Declared(old(Snapshot()).(rolePermissions := old(rolePermissions) + {(role, permission)}))
      ensures Snapshot() == if ok then old(Snapshot()).(rolePermissions := old(rolePermissions) + {(role, permission)}) else old(Snapshot())
      ensures Declared(Snapshot())
    {
      RolePermissionInsertedExactly(Snapshot(), role, permission);
      ok := RolePermissionInsertable(Snapshot(), role, permission);
      if ok {
        rolePermissions := rolePermissions + {(role, permission)};
      }
    }

    /** The DELETE reports whether it hit a row. */
    method DeleteRolePermission(role: Uuid, permission: Uuid) returns (found: bool)
      modifies this
      ensures found == ((role, permission) in old(rolePermissions))
      ensures Snapshot() == old(Snapshot()).(rolePermissions := old(rolePermissions) - {(role, permission)})
    {
      found := (role, permission) in rolePermissions;
      rolePermissions := rolePermissions - {(role, permission)};
    }

    method InsertOrganization(newId: Uuid, name: string) returns (ok: bool)
      requires Declared(Snapshot()) && newId !in organizations
      modifies this
      ensures ok == old(OrganizationInsertable(Snapshot(), name))
      ensures ok <==> Declared(old(Snapshot()).(organizations := old(organizations)[newId := name]))
      ensures Snapshot() == if ok then old(Snapshot()).(organizations := old(organizations)[newId := name]) else old(Snapshot())
      ensures Declared(Snapshot())
    {
      OrganizationInsertedExactly(Snapshot(), newId, name);
      ok := OrganizationInsertable(Snapshot(), name);
      if ok {
        organizations := organizations[newId := name];
      }
    }

    method InsertMembership(newId: Uuid, m: Membership) returns (ok: bool)
      requires Declared(Snapshot()) && newId !in memberships
      modifies this
      ensures ok == old(MembershipInsertable(Snapshot(), m))
      ensures ok <==> Declared(old(Snapshot()).(memberships := old(memberships)[newId := m]))
      ensures Snapshot() == if ok then old(Snapshot()).(memberships := old(memberships)[newId := m]) else old(Snapshot())
      ensures Declared(Snapshot())
    {
      MembershipInsertedExactly(Snapshot(), newId, m);
      ok := MembershipInsertable(Snapshot(), m);
      if ok {
        memberships := memberships[newId := m];
      }
    }

    method DeleteMembership(m: Membership) returns (found: bool)
      requires Unique(Snapshot())
      modifies this
      ensures found == old(IsMember(Snapshot(), m.user, m.organization))
      ensures !found ==> Snapshot() == old(Snapshot())
      ensures Snapshot() == old(Snapshot()).(
                memberships := map id | id in old(memberships) && old(memberships)[id] != m :: old(memberships)[id])
    {
      var matching := set id | id in memberships && memberships[id] == m;
      if matching == {} {
        NothingMatches(memberships, m);
        return false;
      }
      var row :| row in matching;
      memberships := map id | id in memberships && id != row :: memberships[id];
      found := true;
    }
  }

  class AuthorizationService {
    const db: Database
    const audit: AuditLogRepository

    constructor (db: Database, audit: AuditLogRepository)
      ensures this.db == db && this.audit == audit
    {
      this.db, this.audit := db, audit;
    }

    method CreateRole(name: string, organization: Option<Uuid>, actor: Uuid, now: Time, newId: Uuid) returns (reply: Reply)
      requires Declared(db.Snapshot()) && Unused(db.Snapshot(), newId)
      modifies db, audit
      ensures var o := old(ServeCreateRole(db.Snapshot(), actor, name, organization, newId));
        db.Snapshot() == o.db && reply == o.reply && audit.rows == old(audit.rows) + Stamped(now, o.events)
      ensures ChangedAsRecorded(old(db.Snapshot()), old(audit.rows), db.Snapshot(), audit.rows, reply)
    {
      if organization.Some? && organization.value !in db.organizations {
        return OrganizationNotFound;
      }
      var ok := db.InsertRole(newId, Role(name, organization));
      if !ok {
        return RoleNameAlreadyExists;
      }
      audit.Record(now, Note(RoleCreated, actor, newId, organization, Named(name)));
      ServeRecordsItsChange(old(db.Snapshot()), actor, Requests.CreateRole(name, organization), newId, now, old(audit.rows));
      reply := Done;
    }

    method AssignRole(user: Uuid, role: Uuid, organization: Option<Uuid>, actor: Uuid, now: Time, newId: Uuid) returns (reply: Reply)
      requires Declared(db.Snapshot()) && Unused(db.Snapshot(), newId)
      modifies db, audit
      ensures var o := old(ServeAssignRole(db.Snapshot(), actor, Assignment(user, role, organization), newId));
        db.Snapshot() == o.db && reply == o.reply && audit.rows == old(audit.rows) + Stamped(now, o.events)
      ensures ChangedAsRecorded(old(db.Snapshot()), old(audit.rows), db.Snapshot(), audit.rows, reply)
    {
      ServeRecordsItsChange(db.Snapshot(), actor, Requests.AssignRole(user, role, organization), newId, now, audit.rows);
      if role !in db.roles {
        return RoleNotFound;
      }
      var scope := db.roles[role].organization;
      if scope.Some? && scope != organization {
        return RoleOrganizationMismatch;
      }
      if organization.Some? {
        if organization.value !in db.organizations {
          return OrganizationNotFound;
        }
        if !IsMember(db.Snapshot(), user, organization.value) {
          return UserNotOrganizationMember;
        }
      }
      var ok := db.InsertUserRole(newId, Assignment(user, role, organization));
      if !ok {
        return RoleAlreadyAssigned;
      }
      audit.Record(now, Note(RoleAssigned, actor, user, organization, AboutRole(role)));
      reply := Done;
    }

    method RevokeRole(user: Uuid, role: Uuid, organization: Option<Uuid>, actor: Uuid, now: Time) returns (reply: Reply)
      requires Declared(db.Snapshot())
      modifies db, audit
      ensures var o := old(ServeRevokeRole(db.Snapshot(), actor, Assignment(user, role, organization)));
        db.Snapshot() == o.db && reply == o.reply && audit.rows == old(audit.rows) + Stamped(now, o.events)
      ensures ChangedAsRecorded(old(db.Snapshot()), old(audit.rows), db.Snapshot(), audit.rows, reply)
    {
      ServeRecordsItsChange(db.Snapshot(), actor, Requests.RevokeRole(user, role, organization), 0, now, audit.rows);
      var a := Assignment(user, role, organization);
      var found := db.DeleteUserRole(a);
      if found {
        audit.Record(now, Note(RoleRevoked, actor, user, organization, AboutRole(role)));
      }
      reply := Removed(found);
    }

    method AssignPermissionToRole(role: Uuid, permission: Uuid, actor: Uuid, now: Time) returns (reply: Reply)
      requires Declared(db.Snapshot())
      modifies db, audit
      ensures var o := old(ServeAssignPermission(db.Snapshot(), actor, role, permission));
        db.Snapshot() == o.db && reply == o.reply && audit.rows == old(audit.rows) + Stamped(now, o.events)
      ensures ChangedAsRecorded(old(db.Snapshot()), old(audit.rows), db.Snapshot(), audit.rows, reply)
    {
      ServeRecordsItsChange(db.Snapshot(), actor, Requests.AssignPermission(role, permission), 0, now, audit.rows);
      if role !in db.roles {
        return RoleNotFound;
      }
      if permission !in db.permissions {
        return PermissionNotFound;
      }
      var ok := db.InsertRolePermission(role, permission);
      if !ok {
        return PermissionAlreadyAssigned;
      }
      audit.Record(now, Note(PermissionAssignedToRole, actor, role, db.roles[role].organization, AboutPermission(permission)));
      reply := Done;
    }

    method RemovePermissionFromRole(role: Uuid, permission: Uuid, actor: Uuid, now: Time) returns (reply: Reply)
      requires Declared(db.Snapshot())
      modifies db, audit
      ensures var o := old(ServeRemovePermission(db.Snapshot(), actor, role, permission));
        db.Snapshot() == o.db && reply == o.reply && audit.rows == old(audit.rows) + Stamped(now, o.events)
      ensures ChangedAsRecorded(old(db.Snapshot()), old(audit.rows), db.Snapshot(), audit.rows, reply)
    {
      ServeRecordsItsChange(db.Snapshot(), actor, Requests.RemovePermission(role, permission), 0, now, audit.rows);
      if role !in db.roles {
        return RoleNotFound;
      }
      var removed := db.DeleteRolePermission(role, permission);
      if removed {
        audit.Record(now, Note(PermissionRemovedFromRole, actor, role, db.roles[role].organization, AboutPermission(permission)));
      }
      reply := Removed(removed);
    }
  }

  class OrganizationService {
    const db: Database
    const audit: AuditLogRepository

    constructor (db: Database, audit: AuditLogRepository)
      ensures this.db == db && this.audit == audit
    {
      this.db, this.audit := db, audit;
    }

    method CreateOrganization(name: string, actor: Uuid, now: Time, newId: Uuid) returns (reply: Reply)
      requires Declared(db.Snapshot()) && Unused(db.Snapshot(), newId)
      modifies db, audit
      ensures var o := old(ServeCreateOrganization(db.Snapshot(), actor, name, newId));
        db.Snapshot() == o.db && reply == o.reply && audit.rows == old(audit.rows) + Stamped(now, o.events)
      ensures ChangedAsRecorded(old(db.Snapshot()), old(audit.rows), db.Snapshot(), audit.rows, reply)
    {
      var ok := db.InsertOrganization(newId, name);
      if !ok {
        return OrganizationNameAlreadyExists;
      }
      audit.Record(now, Note(OrganizationCreated, actor, newId, Some(newId), Named(name)));
      ServeRecordsItsChange(old(db.Snapshot()), actor, Requests.CreateOrganization(name), newId, now, old(audit.rows));
      reply := Done;
    }

    method AddMember(user: Uuid, organization: Uuid, actor: Uuid, now: Time, newId: Uuid) returns (reply: Reply)
      requires Declared(db.Snapshot()) && Unused(db.Snapshot(), newId)
      modifies db, audit
      ensures var o := old(ServeAddMember(db.Snapshot(), actor, Membership(user, organization), newId));
        db.Snapshot() == o.db && reply == o.reply && audit.rows == old(audit.rows) + Stamped(now, o.events)
      ensures ChangedAsRecorded(old(db.Snapshot()), old(audit.rows), db.Snapshot(), audit.rows, reply)
    {
      if user !in db.users {
        return UserNotFound;
      }
      if organization !in db.organizations {
        return OrganizationNotFound;
      }
      var ok := db.InsertMembership(newId, Membership(user, organization));
      if !ok {
        return MembershipAlreadyExists;
      }
      audit.Record(now, Note(OrganizationMemberAdded, actor, user, Some(organization), NoMetadata));
      ServeRecordsItsChange(old(db.Snapshot()), actor, Requests.AddMember(user, organization), newId, now, old(audit.rows));
      reply := Done;
    }

    method RemoveMember(user: Uuid, organization: Uuid, actor: Uuid, now: Time) returns (reply: Reply)
      requires Declared(db.Snapshot())
      modifies db, audit
      ensures var o := old(ServeRemoveMember(db.Snapshot(), actor, Membership(user, organization)));
        db.Snapshot() == o.db && reply == o.reply && audit.rows == old(audit.rows) + Stamped(now, o.events)
      ensures ChangedAsRecorded(old(db.Snapshot()), old(audit.rows), db.Snapshot(), audit.rows, reply)
    {
      ServeRecordsItsChange(db.Snapshot(), actor, Requests.RemoveMember(user, organization), 0, now, audit.rows);
      var m := Membership(user, organization);
      var found := db.DeleteMembership(m);
      if found {
        audit.Record(now, Note(OrganizationMemberRemoved, actor, user, Some(organization), NoMetadata));
      }
      reply := Removed(found);
    }
  }
}
