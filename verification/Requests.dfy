/** What the authorization and organization services do with a request, and the gate in front of them. */
module Requests {
  import opened Common
  import opened Audit
  import opened Rbac

  datatype Request =
    | Register
    | CreateRole(name: string, organization: Option<Uuid>)
    | AssignRole(user: Uuid, role: Uuid, organization: Option<Uuid>)
    | RevokeRole(user: Uuid, role: Uuid, organization: Option<Uuid>)
    | AssignPermission(role: Uuid, permission: Uuid)
    | RemovePermission(role: Uuid, permission: Uuid)
    | CreateOrganization(name: string)
    | AddMember(user: Uuid, to: Uuid)
    | RemoveMember(user: Uuid, from: Uuid)

  /** The requests that insert a row with a key of its own. */
  predicate NeedsKey(request: Request) {
    request.Register? || request.CreateRole? || request.AssignRole? || request.CreateOrganization? || request.AddMember?
  }

  datatype Reply =
    | Done
    | Removed(found: bool)
    | Unauthenticated
    | Forbidden
    | UserNotFound
    | RoleNotFound
    | PermissionNotFound
    | OrganizationNotFound
    | RoleOrganizationMismatch
    | UserNotOrganizationMember
    | RoleNameAlreadyExists
    | RoleAlreadyAssigned
    | PermissionAlreadyAssigned
    | OrganizationNameAlreadyExists
    | MembershipAlreadyExists

  /** The replies of a request that changed something. */
  predicate Changed(reply: Reply) {
    reply == Done || reply == Removed(true)
  }

  datatype Outcome = Outcome(db: Db, events: seq<Event>, reply: Reply)

  function Refused(db: Db, reply: Reply): Outcome {
    Outcome(db, [], reply)
  }

  function Note(action: Action, actor: Uuid, target: Uuid, organization: Option<Uuid>, metadata: Metadata): Event {
    Event(action, Some(actor), Some(target), organization, metadata)
  }

  // ---------------------------------------------------------------- the services

  function ServeCreateRole(db: Db, actor: Uuid, name: string, organization: Option<Uuid>, newId: Uuid): Outcome {
    if !Exists(db, organization) then Refused(db, OrganizationNotFound)
    else if !RoleInsertable(db, Role(name, organization)) then Refused(db, RoleNameAlreadyExists)
    else Outcome(db.(roles := db.roles[newId := Role(name, organization)]),
                 [Note(RoleCreated, actor, newId, organization, Named(name))], Done)
  }

  function ServeAssignRole(db: Db, actor: Uuid, a: Assignment, newId: Uuid): Outcome {
    if a.role !in db.roles then Refused(db, RoleNotFound)
    else if db.roles[a.role].organization.Some? && db.roles[a.role].organization != a.organization then
      Refused(db, RoleOrganizationMismatch)
    else if !Exists(db, a.organization) then Refused(db, OrganizationNotFound)
    else if a.organization.Some? && !IsMember(db, a.user, a.organization.value) then
      Refused(db, UserNotOrganizationMember)
    else if !AssignmentInsertable(db, a) then Refused(db, RoleAlreadyAssigned)
    else Outcome(db.(userRoles := db.userRoles[newId := a]),
                 [Note(RoleAssigned, actor, a.user, a.organization, AboutRole(a.role))], Done)
  }

  function ServeRevokeRole(db: Db, actor: Uuid, a: Assignment): Outcome {
    if !Assigned(db, a) then Refused(db, Removed(false))
    else Outcome(db.(userRoles := map id | id in db.userRoles && db.userRoles[id] != a :: db.userRoles[id]),
                 [Note(RoleRevoked, actor, a.user, a.organization, AboutRole(a.role))], Removed(true))
  }

  function ServeAssignPermission(db: Db, actor: Uuid, role: Uuid, permission: Uuid): Outcome {
    if role !in db.roles then Refused(db, RoleNotFound)
    else if permission !in db.permissions then Refused(db, PermissionNotFound)
    else if !RolePermissionInsertable(db, role, permission) then Refused(db, PermissionAlreadyAssigned)
    else Outcome(db.(rolePermissions := db.rolePermissions + {(role, permission)}),
                 [Note(PermissionAssignedToRole, actor, role, db.roles[role].organization, AboutPermission(permission))], Done)
  }

  function ServeRemovePermission(db: Db, actor: Uuid, role: Uuid, permission: Uuid): Outcome {
    if role !in db.roles then Refused(db, RoleNotFound)
    else if (role, permission) !in db.rolePermissions then Refused(db, Removed(false))
    else Outcome(db.(rolePermissions := db.rolePermissions - {(role, permission)}),
                 [Note(PermissionRemovedFromRole, actor, role, db.roles[role].organization, AboutPermission(permission))],
                 Removed(true))
  }

  function ServeCreateOrganization(db: Db, actor: Uuid, name: string, newId: Uuid): Outcome {
    if !OrganizationInsertable(db, name) then Refused(db, OrganizationNameAlreadyExists)
    else Outcome(db.(organizations := db.organizations[newId := name]),
                 [Note(OrganizationCreated, actor, newId, Some(newId), Named(name))], Done)
  }

  function ServeAddMember(db: Db, actor: Uuid, m: Membership, newId: Uuid): Outcome {
    if m.user !in db.users then Refused(db, UserNotFound)
    else if m.organization !in db.organizations then Refused(db, OrganizationNotFound)
    else if !MembershipInsertable(db, m) then Refused(db, MembershipAlreadyExists)
    else Outcome(db.(memberships := db.memberships[newId := m]),
                 [Note(OrganizationMemberAdded, actor, m.user, Some(m.organization), NoMetadata)], Done)
  }

  function ServeRemoveMember(db: Db, actor: Uuid, m: Membership): Outcome {
    if !IsMember(db, m.user, m.organization) then Refused(db, Removed(false))
    else Outcome(db.(memberships := map id | id in db.memberships && db.memberships[id] != m :: db.memberships[id]),
                 [Note(OrganizationMemberRemoved, actor, m.user, Some(m.organization), NoMetadata)], Removed(true))
  }

  function ServeRegister(db: Db, newId: Uuid): Outcome {
    Outcome(db.(users := db.users[newId := true]), [Note(UserRegistered, newId, newId, None, NoMetadata)], Done)
  }

  function Serve(db: Db, actor: Uuid, request: Request, newId: Uuid): Outcome {
    match request
    case Register => ServeRegister(db, newId)
    case CreateRole(name, organization) => ServeCreateRole(db, actor, name, organization, newId)
    case AssignRole(user, role, organization) => ServeAssignRole(db, actor, Assignment(user, role, organization), newId)
    case RevokeRole(user, role, organization) => ServeRevokeRole(db, actor, Assignment(user, role, organization))
    case AssignPermission(role, permission) => ServeAssignPermission(db, actor, role, permission)
    case RemovePermission(role, permission) => ServeRemovePermission(db, actor, role, permission)
    case CreateOrganization(name) => ServeCreateOrganization(db, actor, name, newId)
    case AddMember(user, to) => ServeAddMember(db, actor, Membership(user, to), newId)
    case RemoveMember(user, from) => ServeRemoveMember(db, actor, Membership(user, from))
  }

  // ---------------------------------------------------------------- every reply and its condition, over the tables

  lemma CreateRoleExactly(db: Db, actor: Uuid, name: string, organization: Option<Uuid>, newId: Uuid)
    ensures
      var o := ServeCreateRole(db, actor, name, organization, newId);
      var known := organization == None || organization.value in db.organizations;
      var taken := exists r :: r in db.roles && db.roles[r].name == name;
      && (o.reply == OrganizationNotFound <==> !known)
      && (o.reply == RoleNameAlreadyExists <==> known && taken)
      && (o.reply == Done <==> known && !taken)
      && (o.reply != Done ==> o.db == db && o.events == [])
      && (o.reply == Done ==>
            && o.db == db.(roles := db.roles[newId := Role(name, organization)])
            && o.events == [Event(RoleCreated, Some(actor), Some(newId), organization, Named(name))])
  {
  }

  /** A role of an organization is assigned only there; any other role anywhere, to members of the place named. */
  lemma AssignRoleExactly(db: Db, actor: Uuid, a: Assignment, newId: Uuid)
    ensures
      var o := ServeAssignRole(db, actor, a, newId);
      var role := a.role in db.roles;
      var fits := role && (db.roles[a.role].organization == None || db.roles[a.role].organization == a.organization);
      var known := a.organization == None || a.organization.value in db.organizations;
      var member := a.organization == None
        || exists m :: m in db.memberships && db.memberships[m] == Membership(a.user, a.organization.value);
      var insertable := a.user in db.users && forall id | id in db.userRoles :: db.userRoles[id] != a;
      && (o.reply == RoleNotFound <==> !role)
      && (o.reply == RoleOrganizationMismatch <==> role && !fits)
      && (o.reply == OrganizationNotFound <==> fits && !known)
      && (o.reply == UserNotOrganizationMember <==> fits && known && !member)
      && (o.reply == RoleAlreadyAssigned <==> fits && known && member && !insertable)
      && (o.reply == Done <==> fits && known && member && insertable)
      && (o.reply != Done ==> o.db == db && o.events == [])
      && (o.reply == Done ==>
            && o.db == db.(userRoles := db.userRoles[newId := a])
            && o.events == [Event(RoleAssigned, Some(actor), Some(a.user), a.organization, AboutRole(a.role))])
  {
  }

  lemma RevokeRoleExactly(db: Db, actor: Uuid, a: Assignment, id: Uuid)
    ensures
      var o := ServeRevokeRole(db, actor, a);
      var found := exists i :: i in db.userRoles && db.userRoles[i] == a;
      && o.reply == Removed(found)
      && (id in o.db.userRoles <==> id in db.userRoles && db.userRoles[id] != a)
      && (id in o.db.userRoles ==> o.db.userRoles[id] == db.userRoles[id])
      && o.db.(userRoles := db.userRoles) == db
      && o.events == if found then [Event(RoleRevoked, Some(actor), Some(a.user), a.organization, AboutRole(a.role))] else []
  {
  }

  lemma AssignPermissionExactly(db: Db, actor: Uuid, role: Uuid, permission: Uuid)
    ensures
      var o := ServeAssignPermission(db, actor, role, permission);
      && (o.reply == RoleNotFound <==> role !in db.roles)
      && (o.reply == PermissionNotFound <==> role in db.roles && permission !in db.permissions)
      && (o.reply == PermissionAlreadyAssigned <==>
            role in db.roles && permission in db.permissions && (role, permission) in db.rolePermissions)
      && (o.reply == Done <==>
            role in db.roles && permission in db.permissions && (role, permission) !in db.rolePermissions)
      && (o.reply != Done ==> o.db == db && o.events == [])
      && (o.reply == Done ==>
            && o.db == db.(rolePermissions := db.rolePermissions + {(role, permission)})
            && o.events == [Event(PermissionAssignedToRole, Some(actor), Some(role), db.roles[role].organization, AboutPermission(permission))])
  {
  }

  /** An unknown permission is just one the role does not have. */
  lemma RemovePermissionExactly(db: Db, actor: Uuid, role: Uuid, permission: Uuid)
    ensures
      var o := ServeRemovePermission(db, actor, role, permission);
      var found := role in db.roles && (role, permission) in db.rolePermissions;
      && o.reply == (if role !in db.roles then RoleNotFound else Removed(found))
      && o.db == (if found then db.(rolePermissions := db.rolePermissions - {(role, permission)}) else db)
      && (found ==>
            o.events == [Event(PermissionRemovedFromRole, Some(actor), Some(role), db.roles[role].organization, AboutPermission(permission))])
      && (!found ==> o.events == [])
  {
  }

  /** The event of a new organization is scoped to that organization itself. */
  lemma CreateOrganizationExactly(db: Db, actor: Uuid, name: string, newId: Uuid)
    ensures
      var o := ServeCreateOrganization(db, actor, name, newId);
      var taken := exists p :: p in db.organizations && db.organizations[p] == name;
      && (o.reply == OrganizationNameAlreadyExists <==> taken)
      && (o.reply == Done <==> !taken)
      && (taken ==> o.db == db && o.events == [])
      && (!taken ==>
            && o.db == db.(organizations := db.organizations[newId := name])
            && o.events == [Event(OrganizationCreated, Some(actor), Some(newId), Some(newId), Named(name))])
  {
  }

  lemma AddMemberExactly(db: Db, actor: Uuid, m: Membership, newId: Uuid)
    ensures
      var o := ServeAddMember(db, actor, m, newId);
      var known := m.user in db.users && m.organization in db.organizations;
      var member := exists i :: i in db.memberships && db.memberships[i] == m;
      && (o.reply == UserNotFound <==> m.user !in db.users)
      && (o.reply == OrganizationNotFound <==> m.user in db.users && m.organization !in db.organizations)
      && (o.reply == MembershipAlreadyExists <==> known && member)
      && (o.reply == Done <==> known && !member)
      && (o.reply != Done ==> o.db == db && o.events == [])
      && (o.reply == Done ==>
            && o.db == db.(memberships := db.memberships[newId := m])
            && o.events == [Event(OrganizationMemberAdded, Some(actor), Some(m.user), Some(m.organization), NoMetadata)])
  {
  }

  lemma RemoveMemberExactly(db: Db, actor: Uuid, m: Membership, id: Uuid)
    ensures
      var o := ServeRemoveMember(db, actor, m);
      var found := exists i :: i in db.memberships && db.memberships[i] == m;
      && o.reply == Removed(found)
      && (id in o.db.memberships <==> id in db.memberships && db.memberships[id] != m)
      && (id in o.db.memberships ==> o.db.memberships[id] == db.memberships[id])
      && o.db.(memberships := db.memberships) == db
      && o.events == if found then [Event(OrganizationMemberRemoved, Some(actor), Some(m.user), Some(m.organization), NoMetadata)] else []
  {
  }

  /** A new user is active and holds nothing. */
  lemma RegisterExactly(db: Db, newId: Uuid)
    ensures
      var o := ServeRegister(db, newId);
      && o.reply == Done && o.db == db.(users := db.users[newId := true])
      && o.events == [Event(UserRegistered, Some(newId), Some(newId), None, NoMetadata)]
  {
  }

  // ---------------------------------------------------------------- the gate

  /** The (resource, action) pair each route demands. Registration is open. */
  function Demand(request: Request): Option<Permission> {
    match request
    case Register => None
    case CreateRole(_, _) => Some(Permission("role", "manage"))
    case AssignPermission(_, _) => Some(Permission("role", "manage"))
    case RemovePermission(_, _) => Some(Permission("role", "manage"))
    case AssignRole(_, _, _) => Some(Permission("user", "manage"))
    case RevokeRole(_, _, _) => Some(Permission("user", "manage"))
    case CreateOrganization(_) => Some(Permission("organization", "manage"))
    case AddMember(_, _) => Some(Permission("organization", "manage"))
    case RemoveMember(_, _) => Some(Permission("organization", "manage"))
  }

  /** The gate asks with no organization context, whatever the request is about. */
  predicate Passes(db: Db, actor: Uuid, demand: Option<Permission>) {
    demand.Some? ==> Authorize(db, actor, demand.value.resource, demand.value.action, None)
  }

  function Handle(db: Db, actor: Uuid, request: Request, newId: Uuid): Outcome {
    if Demand(request).Some? && actor !in db.users then Refused(db, Unauthenticated)
    else if !Passes(db, actor, Demand(request)) then Refused(db, Forbidden)
    else Serve(db, actor, request, newId)
  }

  /** Authentication and then the permission of the route, asked globally, and nothing else stand before a service. */
  lemma GateExactly(db: Db, actor: Uuid, request: Request, newId: Uuid)
    ensures
      var o := Handle(db, actor, request, newId);
      var resource :=
        if request.CreateRole? || request.AssignPermission? || request.RemovePermission? then "role"
        else if request.AssignRole? || request.RevokeRole? then "user"
        else "organization";
      var held := Authorize(db, actor, resource, "manage", None);
      && (request.Register? || held ==> o == Serve(db, actor, request, newId))
      && (o.reply == Unauthenticated <==> !request.Register? && actor !in db.users)
      && (o.reply == Forbidden <==> !request.Register? && actor in db.users && !held)
      && (o.reply == Unauthenticated || o.reply == Forbidden ==> o.db == db && o.events == [])
  {
    NeverRepliesLikeGate(db, actor, request, newId);
  }

  lemma NeverRepliesLikeGate(db: Db, actor: Uuid, request: Request, newId: Uuid)
    ensures var reply := Serve(db, actor, request, newId).reply; reply != Unauthenticated && reply != Forbidden
  {
  }

  /** Each request reaches its own service with its own arguments. */
  lemma ServedByItsService(db: Db, actor: Uuid, request: Request, newId: Uuid)
    ensures
      var o := Serve(db, actor, request, newId);
      && (request.CreateRole? ==> o == ServeCreateRole(db, actor, request.name, request.organization, newId))
      && (request.AssignRole? ==> o == ServeAssignRole(db, actor, Assignment(request.user, request.role, request.organization), newId))
      && (request.RevokeRole? ==> o == ServeRevokeRole(db, actor, Assignment(request.user, request.role, request.organization)))
      && (request.AssignPermission? ==> o == ServeAssignPermission(db, actor, request.role, request.permission))
      && (request.RemovePermission? ==> o == ServeRemovePermission(db, actor, request.role, request.permission))
      && (request.CreateOrganization? ==> o == ServeCreateOrganization(db, actor, request.name, newId))
      && (request.AddMember? ==> o == ServeAddMember(db, actor, Membership(request.user, request.to), newId))
      && (request.RemoveMember? ==> o == ServeRemoveMember(db, actor, Membership(request.user, request.from)))
      && (request.Register? ==> o == ServeRegister(db, newId))
  {
  }

  // ---------------------------------------------------------------- runs

  datatype ApiCall = ApiCall(actor: Uuid, request: Request, newId: Uuid)

  /** The tables and the events recorded since the start. */
  datatype System = System(db: Db, log: seq<Event>)

  /** A key that is in use already is never generated; such a call does not happen. */
  function Respond(s: System, call: ApiCall): System {
    if !Unused(s.db, call.newId) then s
    else
      var o := Handle(s.db, call.actor, call.request, call.newId);
      System(o.db, s.log + o.events)
  }

  function Run(db: Db, calls: seq<ApiCall>): System {
    if calls == [] then System(db, [])
    else Respond(Run(db, calls[..|calls| - 1]), calls[|calls| - 1])
  }

  // ---------------------------------------------------------------- what every request keeps

  lemma RegisterKeeps(db: Db, newId: Uuid)
    requires Consistent(db) && Unused(db, newId)
    ensures Consistent(ServeRegister(db, newId).db)
  {
  }

  lemma CreateRoleKeeps(db: Db, actor: Uuid, name: string, organization: Option<Uuid>, newId: Uuid)
    requires Consistent(db) && Unused(db, newId)
    ensures Consistent(ServeCreateRole(db, actor, name, organization, newId).db)
  {
  }

  lemma AssignKeeps(db: Db, actor: Uuid, a: Assignment, newId: Uuid)
    requires Consistent(db) && Unused(db, newId)
    ensures Consistent(ServeAssignRole(db, actor, a, newId).db)
  {
    if ServeAssignRole(db, actor, a, newId).reply == Done {
      AssignmentInsertedExactly(db, newId, a);
      assert ScopesAgree(db.(userRoles := db.userRoles[newId := a]));
    }
  }

  lemma RevokeKeeps(db: Db, actor: Uuid, a: Assignment)
    requires Consistent(db)
    ensures Consistent(ServeRevokeRole(db, actor, a).db)
  {
  }

  lemma RolePermissionsKeep(db: Db, actor: Uuid, role: Uuid, permission: Uuid)
    requires Consistent(db)
    ensures Consistent(ServeAssignPermission(db, actor, role, permission).db)
    ensures Consistent(ServeRemovePermission(db, actor, role, permission).db)
  {
  }

  lemma CreateOrganizationKeeps(db: Db, actor: Uuid, name: string, newId: Uuid)
    requires Consistent(db) && Unused(db, newId)
    ensures Consistent(ServeCreateOrganization(db, actor, name, newId).db)
  {
  }

  lemma AddMemberKeeps(db: Db, actor: Uuid, m: Membership, newId: Uuid)
    requires Consistent(db) && Unused(db, newId)
    ensures Consistent(ServeAddMember(db, actor, m, newId).db)
  {
  }

  lemma RemoveMemberKeeps(db: Db, actor: Uuid, m: Membership)
    requires Consistent(db)
    ensures Consistent(ServeRemoveMember(db, actor, m).db)
  {
  }

  lemma ServeAccessKeeps(db: Db, actor: Uuid, request: Request, newId: Uuid)
    requires Consistent(db) && (NeedsKey(request) ==> Unused(db, newId))
    requires request.CreateRole? || request.AssignRole? || request.RevokeRole?
             || request.AssignPermission? || request.RemovePermission?
    ensures Consistent(Serve(db, actor, request, newId).db)
  {
    match request
    case CreateRole(name, organization) => CreateRoleKeeps(db, actor, name, organization, newId);
    case AssignRole(user, role, organization) => AssignKeeps(db, actor, Assignment(user, role, organization), newId);
    case RevokeRole(user, role, organization) => RevokeKeeps(db, actor, Assignment(user, role, organization));
    case AssignPermission(role, permission) => RolePermissionsKeep(db, actor, role, permission);
    case RemovePermission(role, permission) => RolePermissionsKeep(db, actor, role, permission);
  }

  /** The permission catalog is seeded once and never changes. */
  lemma CatalogFixed(db: Db, actor: Uuid, request: Request, newId: Uuid)
    ensures Serve(db, actor, request, newId).db.permissions == db.permissions
  {
  }

  /** Keys, uniqueness and the agreement of scopes survive every request. */
  lemma ServeKeeps(db: Db, actor: Uuid, request: Request, newId: Uuid)
    requires Consistent(db) && (NeedsKey(request) ==> Unused(db, newId))
    ensures Consistent(Serve(db, actor, request, newId).db)
    ensures Serve(db, actor, request, newId).db.permissions == db.permissions
  {
    CatalogFixed(db, actor, request, newId);
    if request.Register? {
      RegisterKeeps(db, newId);
    } else if request.CreateOrganization? {
      CreateOrganizationKeeps(db, actor, request.name, newId);
    } else if request.AddMember? {
      AddMemberKeeps(db, actor, Membership(request.user, request.to), newId);
    } else if request.RemoveMember? {
      RemoveMemberKeeps(db, actor, Membership(request.user, request.from));
    } else {
      ServeAccessKeeps(db, actor, request, newId);
    }
  }

  lemma RespondKeeps(s: System, call: ApiCall)
    requires Consistent(s.db)
    ensures Consistent(Respond(s, call).db) && Respond(s, call).db.permissions == s.db.permissions
  {
    if Unused(s.db, call.newId) {
      ServeKeeps(s.db, call.actor, call.request, call.newId);
    }
  }

  /** Every reachable database is consistent. */
  lemma {:induction false} RunKeeps(db: Db, calls: seq<ApiCall>)
    requires Consistent(db)
    ensures Consistent(Run(db, calls).db) && Run(db, calls).db.permissions == db.permissions
  {
    if calls != [] {
      RunKeeps(db, calls[..|calls| - 1]);
      RespondKeeps(Run(db, calls[..|calls| - 1]), calls[|calls| - 1]);
    }
  }
}
