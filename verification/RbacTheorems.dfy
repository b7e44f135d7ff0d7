/** Whole-run theorems about authorization: the journal, tenants, privilege, history and error translation. */
module RbacTheorems {
  import opened Common
  import opened Audit
  import opened Rbac
  import opened Requests

  // ---------------------------------------------------------------- the journal

  /** Everything about the tables that a decision or an administrator can see, apart from row keys. */
  datatype View = View(
    users: map<Uuid, bool>,
    organizations: map<Uuid, string>,
    roles: map<Uuid, Role>,
    rolePermissions: set<(Uuid, Uuid)>,
    assignments: set<Assignment>,
    members: set<Membership>)

  function ViewOf(db: Db): View {
    View(db.users, db.organizations, db.roles, db.rolePermissions,
         set id | id in db.userRoles :: db.userRoles[id],
         set id | id in db.memberships :: db.memberships[id])
  }

  /** What one recorded event says happened. Events that report no change of these tables change nothing. */
  function Replayed(v: View, e: Event): View {
    if e.target.None? then v
    else
      var target := e.target.value;
      match (e.action, e.metadata)
      case (UserRegistered, _) => v.(users := v.users[target := true])
      case (RoleCreated, Named(name)) => v.(roles := v.roles[target := Role(name, e.organization)])
      case (RoleAssigned, AboutRole(role)) =>
        v.(assignments := v.assignments + {Assignment(target, role, e.organization)})
      case (RoleRevoked, AboutRole(role)) =>
        v.(assignments := v.assignments - {Assignment(target, role, e.organization)})
      case (PermissionAssignedToRole, AboutPermission(p)) =>
        v.(rolePermissions := v.rolePermissions + {(target, p)})
      case (PermissionRemovedFromRole, AboutPermission(p)) =>
        v.(rolePermissions := v.rolePermissions - {(target, p)})
      case (OrganizationCreated, Named(name)) => v.(organizations := v.organizations[target := name])
      case (OrganizationMemberAdded, _) =>
        if e.organization.None? then v else v.(members := v.members + {Membership(target, e.organization.value)})
      case (OrganizationMemberRemoved, _) =>
        if e.organization.None? then v else v.(members := v.members - {Membership(target, e.organization.value)})
      case _ => v
  }

  function Replay(v: View, log: seq<Event>): View {
    if log == [] then v else Replayed(Replay(v, log[..|log| - 1]), log[|log| - 1])
  }

  lemma ReplayOne(v: View, e: Event)
    ensures Replay(v, [e]) == Replayed(v, e) && Replay(v, []) == v
  {
    assert [e][..0] == [];
  }

  lemma RowAdded<T(!new)>(rows: map<Uuid, T>, newId: Uuid, row: T, rows': map<Uuid, T>)
    requires newId !in rows && rows' == rows[newId := row]
    ensures (set id | id in rows' :: rows'[id]) == (set id | id in rows :: rows[id]) + {row}
  {
    assert rows'[newId] == row;
    forall id | id in rows ensures rows[id] in set k | k in rows' :: rows'[k] {
      assert id in rows' && rows'[id] == rows[id];
    }
  }

  lemma RowRemoved<T(!new)>(rows: map<Uuid, T>, row: T, rows': map<Uuid, T>)
    requires rows' == map id | id in rows && rows[id] != row :: rows[id]
    ensures (set id | id in rows' :: rows'[id]) == (set id | id in rows :: rows[id]) - {row}
  {
    forall id | id in rows && rows[id] != row ensures rows[id] in set k | k in rows' :: rows'[k] {
      assert id in rows' && rows'[id] == rows[id];
    }
  }

  lemma AssignJournalled(db: Db, actor: Uuid, a: Assignment, newId: Uuid)
    requires Unused(db, newId)
    ensures var o := ServeAssignRole(db, actor, a, newId); ViewOf(o.db) == Replay(ViewOf(db), o.events)
  {
    RowAdded(db.userRoles, newId, a, db.userRoles[newId := a]);
    ReplayOne(ViewOf(db), Note(RoleAssigned, actor, a.user, a.organization, AboutRole(a.role)));
  }

  lemma RevokeJournalled(db: Db, actor: Uuid, a: Assignment)
    ensures var o := ServeRevokeRole(db, actor, a); ViewOf(o.db) == Replay(ViewOf(db), o.events)
  {
    RowRemoved(db.userRoles, a, map id | id in db.userRoles && db.userRoles[id] != a :: db.userRoles[id]);
    ReplayOne(ViewOf(db), Note(RoleRevoked, actor, a.user, a.organization, AboutRole(a.role)));
  }

  lemma AddMemberJournalled(db: Db, actor: Uuid, m: Membership, newId: Uuid)
    requires Unused(db, newId)
    ensures var o := ServeAddMember(db, actor, m, newId); ViewOf(o.db) == Replay(ViewOf(db), o.events)
  {
    RowAdded(db.memberships, newId, m, db.memberships[newId := m]);
    ReplayOne(ViewOf(db), Note(OrganizationMemberAdded, actor, m.user, Some(m.organization), NoMetadata));
  }

  lemma RemoveMemberJournalled(db: Db, actor: Uuid, m: Membership)
    ensures var o := ServeRemoveMember(db, actor, m); ViewOf(o.db) == Replay(ViewOf(db), o.events)
  {
    RowRemoved(db.memberships, m, map id | id in db.memberships && db.memberships[id] != m :: db.memberships[id]);
    ReplayOne(ViewOf(db), Note(OrganizationMemberRemoved, actor, m.user, Some(m.organization), NoMetadata));
  }

  /** Each request records exactly what it changed. */
  lemma ServeJournalled(db: Db, actor: Uuid, request: Request, newId: Uuid)
    requires NeedsKey(request) ==> Unused(db, newId)
    ensures var o := Serve(db, actor, request, newId); ViewOf(o.db) == Replay(ViewOf(db), o.events)
  {
    var o := Serve(db, actor, request, newId);
    assert |o.events| == 1 ==> o.events[..0] == [];
    match request
    case AssignRole(user, role, organization) => AssignJournalled(db, actor, Assignment(user, role, organization), newId);
    case RevokeRole(user, role, organization) => RevokeJournalled(db, actor, Assignment(user, role, organization));
    case AddMember(user, to) => AddMemberJournalled(db, actor, Membership(user, to), newId);
    case RemoveMember(user, from) => RemoveMemberJournalled(db, actor, Membership(user, from));
    case _ =>
  }

  /** Anything but success leaves tables and log alone; success adds the one event that accounts for the whole change. */
  ghost predicate ChangedAsRecorded(before: Db, log: seq<StoredEvent>, after: Db, log': seq<StoredEvent>, reply: Reply) {
    if !Changed(reply) then after == before && log' == log
    else
      && after != before
      && |log'| == |log| + 1 && log'[..|log|] == log
      && ViewOf(after) == Replayed(ViewOf(before), log'[|log|].event)
  }

  lemma SuccessIsOneEvent(db: Db, actor: Uuid, request: Request, newId: Uuid)
    requires NeedsKey(request) ==> Unused(db, newId)
    ensures var o := Serve(db, actor, request, newId);
      if Changed(o.reply) then |o.events| == 1 && o.db != db else o.events == [] && o.db == db
  {
    var o := Serve(db, actor, request, newId);
    if request.RevokeRole? && o.reply == Removed(true) {
      var id :| id in db.userRoles && db.userRoles[id] == Assignment(request.user, request.role, request.organization);
      assert id !in o.db.userRoles;
    }
    if request.RemoveMember? && o.reply == Removed(true) {
      var id :| id in db.memberships && db.memberships[id] == Membership(request.user, request.from);
      assert id !in o.db.memberships;
    }
  }

  lemma ServeRecordsItsChange(db: Db, actor: Uuid, request: Request, newId: Uuid, now: Time, log: seq<StoredEvent>)
    requires NeedsKey(request) ==> Unused(db, newId)
    ensures var o := Serve(db, actor, request, newId);
      ChangedAsRecorded(db, log, o.db, log + Stamped(now, o.events), o.reply)
  {
    var o := Serve(db, actor, request, newId);
    ServeJournalled(db, actor, request, newId);
    SuccessIsOneEvent(db, actor, request, newId);
    if Changed(o.reply) {
      ReplayOne(ViewOf(db), o.events[0]);
      assert o.events == [o.events[0]];
    } else {
      assert log + Stamped(now, []) == log;
    }
  }

  lemma {:induction false} ReplaySplits(v: View, a: seq<Event>, b: seq<Event>)
    ensures Replay(v, a + b) == Replay(Replay(v, a), b)
  {
    if b == [] {
      assert a + b == a;
    } else {
      ReplaySplits(v, a, b[..|b| - 1]);
      assert (a + b)[..|a + b| - 1] == a + b[..|b| - 1];
    }
  }

  /** The journal is complete: replaying it over the starting tables rebuilds the current ones. */
  lemma {:induction false} JournalRebuildsTables(db: Db, calls: seq<ApiCall>)
    requires Consistent(db)
    ensures ViewOf(Run(db, calls).db) == Replay(ViewOf(db), Run(db, calls).log)
  {
    if calls != [] {
      var front, call := calls[..|calls| - 1], calls[|calls| - 1];
      JournalRebuildsTables(db, front);
      RunKeeps(db, front);
      var s := Run(db, front);
      if Unused(s.db, call.newId) {
        ServeJournalled(s.db, call.actor, call.request, call.newId);
        var o := Handle(s.db, call.actor, call.request, call.newId);
        ReplaySplits(ViewOf(db), s.log, o.events);
      }
    }
  }

  /** The decision computed from a view and the fixed catalog. */
  ghost predicate AuthorizeFrom(v: View, catalog: map<Uuid, Permission>, user: Uuid, resource: string, action: string, asked: Option<Uuid>) {
    && user in v.users && v.users[user]
    && exists a, p ::
         && a in v.assignments && a.user == user && InScope(a.organization, asked)
         && (a.role, p) in v.rolePermissions
         && p in catalog && catalog[p] == Permission(resource, action)
  }

  lemma DecisionReadsView(db: Db, user: Uuid, resource: string, action: string, asked: Option<Uuid>)
    ensures Authorize(db, user, resource, action, asked)
       <==> AuthorizeFrom(ViewOf(db), db.permissions, user, resource, action, asked)
  {
    var v := ViewOf(db);
    if AuthorizeFrom(v, db.permissions, user, resource, action, asked) {
      var a, p :|
        && a in v.assignments && a.user == user && InScope(a.organization, asked)
        && (a.role, p) in v.rolePermissions
        && p in db.permissions && db.permissions[p] == Permission(resource, action);
      assert p in PermissionsForUser(db, user, asked);
    }
    if Authorize(db, user, resource, action, asked) {
      var p :| p in PermissionsForUser(db, user, asked) && db.permissions[p] == Permission(resource, action);
      var id :| id in db.userRoles && db.userRoles[id].user == user
        && InScope(db.userRoles[id].organization, asked) && (db.userRoles[id].role, p) in db.rolePermissions;
      assert db.userRoles[id] in v.assignments;
    }
  }

  /** Every decision at every point of every run can be recomputed from the starting tables and the log. */
  lemma DecisionsFromTheLog(db: Db, calls: seq<ApiCall>, user: Uuid, resource: string, action: string, asked: Option<Uuid>)
    requires Consistent(db)
    ensures Authorize(Run(db, calls).db, user, resource, action, asked)
       <==> AuthorizeFrom(Replay(ViewOf(db), Run(db, calls).log), db.permissions, user, resource, action, asked)
  {
    JournalRebuildsTables(db, calls);
    RunKeeps(db, calls);
    DecisionReadsView(Run(db, calls).db, user, resource, action, asked);
  }

  /** The pair that must have been held by whoever caused an event. */
  function DemandOf(action: Action): Option<Permission> {
    match action
    case RoleCreated => Some(Permission("role", "manage"))
    case PermissionAssignedToRole => Some(Permission("role", "manage"))
    case PermissionRemovedFromRole => Some(Permission("role", "manage"))
    case RoleAssigned => Some(Permission("user", "manage"))
    case RoleRevoked => Some(Permission("user", "manage"))
    case OrganizationCreated => Some(Permission("organization", "manage"))
    case OrganizationMemberAdded => Some(Permission("organization", "manage"))
    case OrganizationMemberRemoved => Some(Permission("organization", "manage"))
    case _ => None
  }

  lemma ServedEventNamesActor(db: Db, actor: Uuid, request: Request, newId: Uuid)
    ensures var o := Serve(db, actor, request, newId);
      && |o.events| <= 1
      && (o.events != [] ==>
            && DemandOf(o.events[0].action) == Demand(request)
            && (Demand(request).Some? ==> o.events[0].actor == Some(actor)))
  {
  }

  lemma NewEventWasAuthorized(s: System, call: ApiCall, i: nat)
    requires |s.log| <= i < |Respond(s, call).log|
    ensures var e := Respond(s, call).log[i];
      DemandOf(e.action).Some? ==>
        e.actor.Some? && Authorize(s.db, e.actor.value, DemandOf(e.action).value.resource, DemandOf(e.action).value.action, None)
  {
    ServedEventNamesActor(s.db, call.actor, call.request, call.newId);
    var o := Handle(s.db, call.actor, call.request, call.newId);
    assert Respond(s, call).log[i] == o.events[0];
  }

  /** Whoever the journal names had passed the gate when the event happened. */
  lemma {:induction false} EveryEventWasAuthorized(db: Db, calls: seq<ApiCall>, i: nat) returns (n: nat)
    requires i < |Run(db, calls).log| && DemandOf(Run(db, calls).log[i].action).Some?
    ensures var e := Run(db, calls).log[i]; var demand := DemandOf(e.action).value;
      n < |calls| && e.actor.Some?
      && Authorize(Run(db, calls[..n]).db, e.actor.value, demand.resource, demand.action, None)
  {
    var front := calls[..|calls| - 1];
    if i < |Run(db, front).log| {
      n := EveryEventWasAuthorized(db, front, i);
      assert front[..n] == calls[..n];
    } else {
      NewEventWasAuthorized(Run(db, front), calls[|calls| - 1], i);
      n := |calls| - 1;
    }
  }

  // ---------------------------------------------------------------- tenant isolation

  /** The request works inside one organization: its roles, its assignments, its membership. */
  predicate WithinTenant(db: Db, request: Request, tenant: Uuid) {
    match request
    case CreateRole(_, organization) => organization == Some(tenant)
    case AssignRole(_, _, organization) => organization == Some(tenant)
    case RevokeRole(_, _, organization) => organization == Some(tenant)
    case AssignPermission(role, _) => role in db.roles && db.roles[role].organization == Some(tenant)
    case RemovePermission(role, _) => role in db.roles && db.roles[role].organization == Some(tenant)
    case AddMember(_, to) => to == tenant
    case RemoveMember(_, from) => from == tenant
    case CreateOrganization(_) => false
    case Register => false
  }

  /** Two databases whose assignments in scope for one user are the same rows grant that user the same. */
  lemma SameRowsSameGrants(db: Db, db': Db, user: Uuid, asked: Option<Uuid>)
    requires db.permissions == db'.permissions && db.rolePermissions == db'.rolePermissions
    requires forall id | id in db.userRoles && db.userRoles[id].user == user && InScope(db.userRoles[id].organization, asked) ::
               id in db'.userRoles && db'.userRoles[id] == db.userRoles[id]
    requires forall id | id in db'.userRoles && db'.userRoles[id].user == user && InScope(db'.userRoles[id].organization, asked) ::
               id in db.userRoles && db.userRoles[id] == db'.userRoles[id]
    ensures PermissionsForUser(db, user, asked) == PermissionsForUser(db', user, asked)
  {
  }

  lemma TenantAssignments(db: Db, actor: Uuid, a: Assignment, newId: Uuid, user: Uuid, asked: Option<Uuid>)
    requires Unused(db, newId) && a.organization.Some? && asked != a.organization
    ensures PermissionsForUser(ServeAssignRole(db, actor, a, newId).db, user, asked) == PermissionsForUser(db, user, asked)
    ensures PermissionsForUser(ServeRevokeRole(db, actor, a).db, user, asked) == PermissionsForUser(db, user, asked)
  {
    SameRowsSameGrants(db, ServeAssignRole(db, actor, a, newId).db, user, asked);
    SameRowsSameGrants(db, ServeRevokeRole(db, actor, a).db, user, asked);
  }

  lemma TenantRolePermissions(db: Db, actor: Uuid, role: Uuid, permission: Uuid, user: Uuid, asked: Option<Uuid>)
    requires Consistent(db) && role in db.roles
    requires db.roles[role].organization.Some? && asked != db.roles[role].organization
    ensures PermissionsForUser(ServeAssignPermission(db, actor, role, permission).db, user, asked) == PermissionsForUser(db, user, asked)
    ensures PermissionsForUser(ServeRemovePermission(db, actor, role, permission).db, user, asked) == PermissionsForUser(db, user, asked)
  {
    // Every assignment of this role carries the role's own organization, which is not in scope.
    forall id | id in db.userRoles && InScope(db.userRoles[id].organization, asked)
      ensures db.userRoles[id].role != role
    {
    }
  }

  /** Requests that leave users, assignments and role permissions alone leave every grant alone. */
  lemma NoGrantTouched(db: Db, actor: Uuid, request: Request, newId: Uuid, user: Uuid, asked: Option<Uuid>)
    requires request.CreateRole? || request.CreateOrganization? || request.AddMember? || request.RemoveMember?
    ensures PermissionsForUser(Serve(db, actor, request, newId).db, user, asked) == PermissionsForUser(db, user, asked)
  {
  }

  lemma UsersUntouched(db: Db, actor: Uuid, request: Request, newId: Uuid)
    requires !request.Register?
    ensures Serve(db, actor, request, newId).db.users == db.users
  {
  }

  /** One request within a tenant changes no decision outside it. */
  lemma RequestStaysInTenant(db: Db, actor: Uuid, request: Request, newId: Uuid, tenant: Uuid, user: Uuid, asked: Option<Uuid>)
    requires Consistent(db) && Unused(db, newId) && WithinTenant(db, request, tenant) && asked != Some(tenant)
    ensures PermissionsForUser(Serve(db, actor, request, newId).db, user, asked) == PermissionsForUser(db, user, asked)
  {
    match request
    case AssignRole(u, role, organization) => TenantAssignments(db, actor, Assignment(u, role, organization), newId, user, asked);
    case RevokeRole(u, role, organization) => TenantAssignments(db, actor, Assignment(u, role, organization), newId, user, asked);
    case AssignPermission(role, p) => TenantRolePermissions(db, actor, role, p, user, asked);
    case RemovePermission(role, p) => TenantRolePermissions(db, actor, role, p, user, asked);
    case _ => NoGrantTouched(db, actor, request, newId, user, asked);
  }

  lemma CallStaysInTenant(s: System, call: ApiCall, tenant: Uuid, user: Uuid, resource: string, action: string, asked: Option<Uuid>)
    requires Consistent(s.db) && WithinTenant(s.db, call.request, tenant) && asked != Some(tenant)
    ensures Authorize(Respond(s, call).db, user, resource, action, asked) <==> Authorize(s.db, user, resource, action, asked)
  {
    if Unused(s.db, call.newId) && Handle(s.db, call.actor, call.request, call.newId) == Serve(s.db, call.actor, call.request, call.newId) {
      RequestStaysInTenant(s.db, call.actor, call.request, call.newId, tenant, user, asked);
      UsersUntouched(s.db, call.actor, call.request, call.newId);
      CatalogFixed(s.db, call.actor, call.request, call.newId);
      SameGrantsSameDecision(s.db, Respond(s, call).db, user, asked);
    }
  }

  /** Every call of the run, at the moment it is made, works within the tenant. */
  ghost predicate AllWithinTenant(db: Db, calls: seq<ApiCall>, tenant: Uuid) {
    forall n: nat | n < |calls| :: WithinTenant(Run(db, calls[..n]).db, calls[n].request, tenant)
  }

  /**
    Tenant isolation: any number of requests within one organization leaves every decision under no
    organization, and under every other organization, as it was.
   */
  lemma {:induction false} TenantIsolation(db: Db, calls: seq<ApiCall>, tenant: Uuid, user: Uuid, resource: string, action: string, asked: Option<Uuid>)
    requires Consistent(db) && AllWithinTenant(db, calls, tenant) && asked != Some(tenant)
    ensures Authorize(Run(db, calls).db, user, resource, action, asked) <==> Authorize(db, user, resource, action, asked)
  {
    if calls != [] {
      var front, call := calls[..|calls| - 1], calls[|calls| - 1];
      forall n: nat | n < |front| ensures WithinTenant(Run(db, front[..n]).db, front[n].request, tenant) {
        assert front[..n] == calls[..n];
        assert WithinTenant(Run(db, calls[..n]).db, calls[n].request, tenant);
      }
      TenantIsolation(db, front, tenant, user, resource, action, asked);
      RunKeeps(db, front);
      assert WithinTenant(Run(db, front).db, call.request, tenant);
      CallStaysInTenant(Run(db, front), call, tenant, user, resource, action, asked);
    }
  }

  // ---------------------------------------------------------------- no privilege from nowhere

  /** Somebody active can change who may do what. */
  ghost predicate AnyAdministrator(db: Db) {
    exists user ::
      || Authorize(db, user, "role", "manage", None)
      || Authorize(db, user, "user", "manage", None)
  }

  ghost predicate SameDecisions(db: Db, db': Db) {
    forall user, resource, action, asked ::
      Authorize(db, user, resource, action, asked) <==> Authorize(db', user, resource, action, asked)
  }

  /** A user who has just registered holds nothing; nobody else is affected. */
  lemma RegistrationIsHarmless(db: Db, newId: Uuid)
    requires Consistent(db) && Unused(db, newId)
    ensures SameDecisions(db, ServeRegister(db, newId).db)
  {
    var db' := ServeRegister(db, newId).db;
    forall user, resource, action, asked
      ensures Authorize(db, user, resource, action, asked) <==> Authorize(db', user, resource, action, asked)
    {
      assert PermissionsForUser(db', user, asked) == PermissionsForUser(db, user, asked);
      if user == newId {
        assert PermissionsForUser(db, user, asked) == {};
      }
    }
  }

  /** Registration, organizations and membership have no influence on decisions. */
  lemma HarmlessRequests(db: Db, actor: Uuid, request: Request, newId: Uuid)
    requires Consistent(db) && Unused(db, newId)
    requires request.Register? || request.CreateOrganization? || request.AddMember? || request.RemoveMember?
    ensures SameDecisions(db, Serve(db, actor, request, newId).db)
  {
    if request.Register? {
      RegistrationIsHarmless(db, newId);
    } else {
      var db' := Serve(db, actor, request, newId).db;
      UsersUntouched(db, actor, request, newId);
      CatalogFixed(db, actor, request, newId);
      forall user, resource, action, asked
        ensures Authorize(db, user, resource, action, asked) <==> Authorize(db', user, resource, action, asked)
      {
        NoGrantTouched(db, actor, request, newId, user, asked);
        SameGrantsSameDecision(db, db', user, asked);
      }
    }
  }

  lemma RespondWithoutAdministrator(s: System, call: ApiCall)
    requires Consistent(s.db) && !AnyAdministrator(s.db)
    ensures SameDecisions(s.db, Respond(s, call).db)
  {
    if Unused(s.db, call.newId) && Handle(s.db, call.actor, call.request, call.newId).db != s.db {
      assert !Authorize(s.db, call.actor, "role", "manage", None);
      assert !Authorize(s.db, call.actor, "user", "manage", None);
      HarmlessRequests(s.db, call.actor, call.request, call.newId);
    }
  }

  /**
    No privilege from nowhere: while no active user holds role:manage or user:manage globally, no
    sequence of requests by anyone, holders of grants within organizations included, ever changes
    any decision.
   */
  lemma {:induction false} NoPrivilegeFromNowhere(db: Db, calls: seq<ApiCall>)
    requires Consistent(db) && !AnyAdministrator(db)
    ensures SameDecisions(db, Run(db, calls).db)
  {
    if calls != [] {
      var front := calls[..|calls| - 1];
      NoPrivilegeFromNowhere(db, front);
      RunKeeps(db, front);
      assert !AnyAdministrator(Run(db, front).db);
      RespondWithoutAdministrator(Run(db, front), calls[|calls| - 1]);
    }
  }

  /** The tables as the migrations leave them: four system roles, seven permissions, nobody assigned. */
  const SEEDED: Db := Db(
    map[], map[],
    map[1 := Role("Admin", None), 2 := Role("Manager", None), 3 := Role("Developer", None), 4 := Role("Intern", None)],
    map[11 := Permission("document", "view"), 12 := Permission("document", "edit"),
        13 := Permission("document", "delete"), 14 := Permission("role", "manage"),
        15 := Permission("user", "manage"), 16 := Permission("organization", "manage"),
        17 := Permission("audit", "view")],
    {(1, 11), (1, 12), (1, 13), (1, 14), (1, 15), (1, 16), (1, 17),
     (2, 11), (2, 12), (2, 13), (2, 15),
     (3, 11), (3, 12),
     (4, 11)},
    map[], map[])

  /** From the freshly seeded database every check is denied, for ever. */
  lemma SeededDatabaseDeniesAll(calls: seq<ApiCall>, user: Uuid, resource: string, action: string, asked: Option<Uuid>)
    ensures !Authorize(Run(SEEDED, calls).db, user, resource, action, asked)
  {
    SeedIsConsistent();
    assert !AnyAdministrator(SEEDED);
    NoPrivilegeFromNowhere(SEEDED, calls);
    assert Authorize(SEEDED, user, resource, action, asked) <==> Authorize(Run(SEEDED, calls).db, user, resource, action, asked);
  }

  lemma SeedKeys()
    ensures ForeignKeys(SEEDED) && ScopesAgree(SEEDED)
  {
  }

  lemma SeedIsConsistent()
    ensures Consistent(SEEDED)
  {
    SeedKeys();
    assert Unique(SEEDED);
  }

  // ---------------------------------------------------------------- membership history

  /** Only an assignment adds a row to user_roles, and only the row asked for. */
  lemma RowsComeFromAssignments(db: Db, actor: Uuid, request: Request, newId: Uuid, id: Uuid)
    requires id in Serve(db, actor, request, newId).db.userRoles
    requires id !in db.userRoles || db.userRoles[id] != Serve(db, actor, request, newId).db.userRoles[id]
    ensures request.AssignRole? && Serve(db, actor, request, newId).reply == Done
    ensures Serve(db, actor, request, newId).db.userRoles[id] == Assignment(request.user, request.role, request.organization)
  {
  }

  /** A row within an organization enters the table only while its user is a member there. */
  lemma NewAssignmentNeedsMembership(s: System, call: ApiCall, id: Uuid)
    requires id in Respond(s, call).db.userRoles && Respond(s, call).db.userRoles[id].organization.Some?
    requires id !in s.db.userRoles || s.db.userRoles[id] != Respond(s, call).db.userRoles[id]
    ensures var a := Respond(s, call).db.userRoles[id]; IsMember(s.db, a.user, a.organization.value)
  {
    RowsComeFromAssignments(s.db, call.actor, call.request, call.newId, id);
  }

  /** An assignment within an organization is only ever made to somebody who was a member then. */
  lemma {:induction false} AssignedMembersOnly(db: Db, calls: seq<ApiCall>, id: Uuid) returns (n: nat)
    requires forall i | i in db.userRoles :: db.userRoles[i].organization.None?
    requires id in Run(db, calls).db.userRoles && Run(db, calls).db.userRoles[id].organization.Some?
    ensures var a := Run(db, calls).db.userRoles[id];
      n <= |calls| && IsMember(Run(db, calls[..n]).db, a.user, a.organization.value)
  {
    var front, call := calls[..|calls| - 1], calls[|calls| - 1];
    var before := Run(db, front).db;
    if id in before.userRoles && before.userRoles[id] == Run(db, calls).db.userRoles[id] {
      n := AssignedMembersOnly(db, front, id);
      assert front[..n] == calls[..n];
    } else {
      NewAssignmentNeedsMembership(Run(db, front), call, id);
      n := |calls| - 1;
    }
  }

  // ---------------------------------------------------------------- errors mean what they say

  /** The reply that reports a duplicate is given exactly for a duplicate. */
  lemma DuplicatesReported(db: Db, actor: Uuid, newId: Uuid, name: string, organization: Option<Uuid>, role: Uuid, permission: Uuid, m: Membership)
    requires Consistent(db)
    ensures ServeCreateRole(db, actor, name, organization, newId).reply == RoleNameAlreadyExists
       <==> Exists(db, organization) && NameTaken(db, name)
    ensures ServeAssignPermission(db, actor, role, permission).reply == PermissionAlreadyAssigned
       <==> (role, permission) in db.rolePermissions
    ensures ServeAddMember(db, actor, m, newId).reply == MembershipAlreadyExists
       <==> IsMember(db, m.user, m.organization)
  {
  }

  /**
    For an assignment the catch-all also answers for an unknown user, but only without an
    organization: inside one, membership has already shown that the user exists. The reply is
    right exactly when the assignment names an organization or an existing user.
   */
  lemma AssignmentDuplicateReported(db: Db, actor: Uuid, a: Assignment, newId: Uuid)
    requires Consistent(db)
    requires ServeAssignRole(db, actor, a, newId).reply == RoleAlreadyAssigned
    ensures Assigned(db, a) <==> a.organization.Some? || a.user in db.users
  {
  }

  /** Whoever passes the gate and assigns a global role to an unknown user is told that the user has it already. */
  lemma UnknownUserReportedAsDuplicate(db: Db, actor: Uuid, user: Uuid, role: Uuid, newId: Uuid)
    requires Consistent(db) && actor in db.users && Passes(db, actor, Some(Permission("user", "manage")))
    requires role in db.roles && db.roles[role].organization.None? && user !in db.users
    ensures Handle(db, actor, AssignRole(user, role, None), newId).reply == RoleAlreadyAssigned
    ensures !Assigned(db, Assignment(user, role, None))
  {
  }

  /** The seeded tables after user 9 has registered. */
  const REGISTERED: Db := ServeRegister(SEEDED, 9).db

  /** And after an operator has made that user Admin everywhere. */
  const ADMINISTERED: Db := ServeAssignRole(REGISTERED, 9, Assignment(9, 1, None), 20).db

  lemma RegisteredIsConsistent()
    ensures Consistent(REGISTERED)
  {
    SeedIsConsistent();
    RegisterKeeps(SEEDED, 9);
  }

  lemma AdministeredIsConsistent()
    ensures Consistent(ADMINISTERED)
  {
    RegisteredIsConsistent();
    AssignKeeps(REGISTERED, 9, Assignment(9, 1, None), 20);
  }

  lemma AdministeredRow()
    ensures ADMINISTERED == REGISTERED.(userRoles := map[20 := Assignment(9, 1, None)])
  {
  }

  /** It happens: user 9 may manage users, and user 5 does not exist. */
  lemma UnknownUserScenario(newId: Uuid)
    ensures Consistent(ADMINISTERED)
    ensures Handle(ADMINISTERED, 9, AssignRole(5, 1, None), newId).reply == RoleAlreadyAssigned
    ensures !Assigned(ADMINISTERED, Assignment(5, 1, None))
  {
    AdministeredIsConsistent();
    AdministeredRow();
    assert 15 in PermissionsForUser(ADMINISTERED, 9, None) by {
      assert ADMINISTERED.userRoles[20] == Assignment(9, 1, None) && (1, 15) in ADMINISTERED.rolePermissions;
    }
    assert ADMINISTERED.permissions[15] == Permission("user", "manage");
    UnknownUserReportedAsDuplicate(ADMINISTERED, 9, 5, 1, newId);
  }

  // ---------------------------------------------------------------- exact removal and round trips

  /** The single-row lookup of a removal never finds two rows. */
  lemma LookupsAreTotal(db: Db, calls: seq<ApiCall>, i: Uuid, j: Uuid)
    requires Consistent(db)
    ensures var now := Run(db, calls).db;
      && (i in now.userRoles && j in now.userRoles && now.userRoles[i] == now.userRoles[j] ==> i == j)
      && (i in now.memberships && j in now.memberships && now.memberships[i] == now.memberships[j] ==> i == j)
  {
    RunKeeps(db, calls);
  }

  /** A successful assignment or membership, taken back with the same scope, leaves the tables as they were. */
  lemma TakenBack(db: Db, actor: Uuid, a: Assignment, m: Membership, role: Uuid, permission: Uuid, newId: Uuid)
    requires Unused(db, newId)
    ensures var o := ServeAssignRole(db, actor, a, newId);
      o.reply == Done ==> ServeRevokeRole(o.db, actor, a).db == db && ServeRevokeRole(o.db, actor, a).reply == Removed(true)
    ensures var o := ServeAddMember(db, actor, m, newId);
      o.reply == Done ==> ServeRemoveMember(o.db, actor, m).db == db && ServeRemoveMember(o.db, actor, m).reply == Removed(true)
    ensures var o := ServeAssignPermission(db, actor, role, permission);
      o.reply == Done ==> ServeRemovePermission(o.db, actor, role, permission).db == db
                          && ServeRemovePermission(o.db, actor, role, permission).reply == Removed(true)
  {
    var o := ServeAssignRole(db, actor, a, newId);
    if o.reply == Done {
      assert o.db.userRoles[newId] == a;
      assert ServeRevokeRole(o.db, actor, a).db.userRoles == db.userRoles;
    }
    var q := ServeAddMember(db, actor, m, newId);
    if q.reply == Done {
      assert q.db.memberships[newId] == m;
      assert ServeRemoveMember(q.db, actor, m).db.memberships == db.memberships;
    }
  }

  /** What a role grants. */
  function Carried(db: Db, role: Uuid): set<Uuid> {
    set p | p in db.permissions && (role, p) in db.rolePermissions
  }

  /** An assignment gives its user what the role carries, in the scopes the assignment covers, and nobody anything else. */
  lemma GainedExactly(db: Db, actor: Uuid, a: Assignment, newId: Uuid, user: Uuid, asked: Option<Uuid>)
    requires Unused(db, newId) && ServeAssignRole(db, actor, a, newId).reply == Done
    ensures PermissionsForUser(ServeAssignRole(db, actor, a, newId).db, user, asked)
         == PermissionsForUser(db, user, asked)
            + if user == a.user && InScope(a.organization, asked) then Carried(db, a.role) else {}
  {
    var db' := ServeAssignRole(db, actor, a, newId).db;
    assert db'.userRoles[newId] == a;
    forall id | id in db.userRoles ensures id in db'.userRoles && db'.userRoles[id] == db.userRoles[id] {
    }
  }

  /** A permission is lost by a revocation exactly when no other assignment in scope grants it. */
  lemma LostExactlyWhenNothingElseGrants(db: Db, actor: Uuid, a: Assignment, asked: Option<Uuid>, p: Uuid)
    requires Consistent(db) && p in PermissionsForUser(db, a.user, asked)
    ensures p !in PermissionsForUser(ServeRevokeRole(db, actor, a).db, a.user, asked)
       <==> forall id | id in db.userRoles
                && db.userRoles[id].user == a.user
                && InScope(db.userRoles[id].organization, asked)
                && (db.userRoles[id].role, p) in db.rolePermissions :: db.userRoles[id] == a
  {
    var db' := ServeRevokeRole(db, actor, a).db;
    forall id | id in db.userRoles && db.userRoles[id] != a
      ensures id in db'.userRoles && db'.userRoles[id] == db.userRoles[id]
    {
    }
    forall id | id in db'.userRoles ensures db'.userRoles[id] == db.userRoles[id] {
    }
  }

  /** Revoking touches one user only. */
  lemma OthersKeepTheirs(db: Db, actor: Uuid, a: Assignment, user: Uuid, asked: Option<Uuid>)
    requires user != a.user
    ensures PermissionsForUser(ServeRevokeRole(db, actor, a).db, user, asked) == PermissionsForUser(db, user, asked)
  {
    var db' := ServeRevokeRole(db, actor, a).db;
    forall id | id in db.userRoles && db.userRoles[id].user == user
      ensures id in db'.userRoles && db'.userRoles[id] == db.userRoles[id]
    {
    }
  }
}
