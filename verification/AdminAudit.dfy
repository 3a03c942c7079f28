/** Administrative changes to organisations, plans and users, each written together with an audit row. */
module AdminAudit {
  import opened Text

  datatype Plan = Baslangic | Gelisim | Pro | Kurumsal

  datatype Role = Owner | Admin | Manager | Viewer | SuperAdmin

  /** `platform` marks the platform's own organisation, `partner` those managed on another page. */
  datatype Organization = Organization(
    deleted: bool, suspended: bool, internalAccount: bool, subscriptionId: Option<string>,
    platform: bool, partner: bool)

  datatype User = User(deleted: bool, suspended: bool, role: Role, organizationId: Option<string>)

  /** `resourceId` is an organisation, a subscription (for a plan change) or a user. */
  datatype AuditRow = AuditRow(resourceId: string, action: Action)

  datatype Action =
    | OrganizationSuspended
    | OrganizationUnsuspended
    | PlanChanged(previousPlan: Plan, newPlan: Plan)
    | OrganizationDeleted(userCount: nat)
    | InternalAccountConfigured(enabled: bool, plan: Option<Plan>)
    | UserRoleChanged(previousRole: Role, newRole: Role)
    | UserSuspended
    | UserUnsuspended

  datatype Failure =
    | NotFound
    | NoSubscription
    | AlreadySuspended
    | NotSuspended
    | SamePlan
    | SameRole
    | SuperAdminRole
    | SuperAdminAccount
    | PlatformOrganization
    | OwnOrganization
    | PartnerOrganization

  datatype Database = Database(
    organizations: map<string, Organization>, subscriptions: map<string, Plan>, users: map<string, User>,
    log: seq<AuditRow>)

  /** Organisations refer to subscriptions that exist. */
  ghost predicate ValidDatabase(db: Database) {
    forall id <- db.organizations ::
      db.organizations[id].subscriptionId.Some? ==> db.organizations[id].subscriptionId.value in db.subscriptions
  }

  predicate IsOrganization(db: Database, id: string) {
    id in db.organizations && !db.organizations[id].deleted
  }

  predicate IsUser(db: Database, id: string) {
    id in db.users && !db.users[id].deleted
  }

  function SetOrganization(db: Database, id: string, org: Organization, action: Action): Database {
    db.(organizations := db.organizations[id := org], log := db.log + [AuditRow(id, action)])
  }

  function SetUser(db: Database, id: string, user: User, action: Action): Database {
    db.(users := db.users[id := user], log := db.log + [AuditRow(id, action)])
  }

  predicate IsMember(user: User, organizationId: string) {
    user.organizationId == Some(organizationId) && !user.deleted
  }

  /** The ids of the organisation's users. */
  function Members(users: map<string, User>, organizationId: string): set<string> {
    set id | id in users && IsMember(users[id], organizationId)
  }

  /** `updateMany`: the organisation's users are deleted. */
  function DeleteMembers(users: map<string, User>, organizationId: string): map<string, User> {
    map id | id in users :: if IsMember(users[id], organizationId) then users[id].(deleted := true) else users[id]
  }

  datatype Op =
    | SuspendOrganization(id: string)
    | UnsuspendOrganization(id: string)
    | DeleteOrganization(id: string, actorOrgId: string)
    | ChangePlan(id: string, newPlan: Plan)
    | ConfigureInternalAccount(id: string, enabled: bool, plan: Option<Plan>)
    | ChangeUserRole(id: string, role: Role)
    | SuspendUser(id: string)
    | UnsuspendUser(id: string)

  /** Why an action is refused, if it is. */
  function Refusal(db: Database, op: Op): Option<Failure> {
    match op
    case SuspendOrganization(id) =>
      if !IsOrganization(db, id) then Some(NotFound)
      else if db.organizations[id].suspended then Some(AlreadySuspended)
      else None
    case UnsuspendOrganization(id) =>
      if !IsOrganization(db, id) then Some(NotFound)
      else if !db.organizations[id].suspended then Some(NotSuspended)
      else None
    case DeleteOrganization(id, actorOrgId) =>
      if !IsOrganization(db, id) then Some(NotFound)
      else if db.organizations[id].platform then Some(PlatformOrganization)
      else if id == actorOrgId then Some(OwnOrganization)
      else if db.organizations[id].partner then Some(PartnerOrganization)
      else None
    case ChangePlan(id, newPlan) =>
      if !IsOrganization(db, id) || db.organizations[id].subscriptionId.None? then Some(NoSubscription)
      else
        var sub := db.organizations[id].subscriptionId.value;
        if sub in db.subscriptions && db.subscriptions[sub] == newPlan then Some(SamePlan) else None
    case ConfigureInternalAccount(id, _, _) =>
      if !IsOrganization(db, id) then Some(NotFound)
      else if db.organizations[id].subscriptionId.None? then Some(NoSubscription)
      else None
    case ChangeUserRole(id, role) =>
      if !IsUser(db, id) then Some(NotFound)
      else if db.users[id].role == role then Some(SameRole)
      else if db.users[id].role == SuperAdmin || role == SuperAdmin then Some(SuperAdminRole)
      else None
    case SuspendUser(id) =>
      if !IsUser(db, id) then Some(NotFound)
      else if db.users[id].suspended then Some(AlreadySuspended)
      else if db.users[id].role == SuperAdmin then Some(SuperAdminAccount)
      else None
    case UnsuspendUser(id) =>
      if !IsUser(db, id) then Some(NotFound)
      else if !db.users[id].suspended then Some(NotSuspended)
      else None
  }

  /** The database after an action that was not refused: one change and one row. */
  function Apply(db: Database, op: Op): Database
    requires Refusal(db, op).None? && ValidDatabase(db)
  {
    match op
    case SuspendOrganization(id) =>
      SetOrganization(db, id, db.organizations[id].(suspended := true), OrganizationSuspended)
    case UnsuspendOrganization(id) =>
      SetOrganization(db, id, db.organizations[id].(suspended := false), OrganizationUnsuspended)
    case DeleteOrganization(id, _) =>
      var org := db.organizations[id].(deleted := true, suspended := true);
      SetOrganization(db, id, org, OrganizationDeleted(|Members(db.users, id)|))
        .(users := DeleteMembers(db.users, id))
    case ChangePlan(id, newPlan) =>
      var sub := db.organizations[id].subscriptionId.value;
      db.(subscriptions := db.subscriptions[sub := newPlan],
          log := db.log + [AuditRow(sub, PlanChanged(db.subscriptions[sub], newPlan))])
    case ConfigureInternalAccount(id, enabled, plan) =>
      var org, chosen := db.organizations[id], if plan.Some? then plan.value else Kurumsal;
      var action := InternalAccountConfigured(enabled, if enabled then Some(chosen) else None);
      SetOrganization(db, id, org.(internalAccount := enabled), action)
        .(subscriptions := if enabled then db.subscriptions[org.subscriptionId.value := chosen] else db.subscriptions)
    case ChangeUserRole(id, role) =>
      SetUser(db, id, db.users[id].(role := role), UserRoleChanged(db.users[id].role, role))
    case SuspendUser(id) => SetUser(db, id, db.users[id].(suspended := true), UserSuspended)
    case UnsuspendUser(id) => SetUser(db, id, db.users[id].(suspended := false), UserUnsuspended)
  }

  function Step(db: Database, op: Op): (Database, Option<Failure>)
    requires ValidDatabase(db)
  {
    if Refusal(db, op).Some? then (db, Refusal(db, op)) else (Apply(db, op), None)
  }

  class AdminService {
    var organizations: map<string, Organization>
    var subscriptions: map<string, Plan>
    var users: map<string, User>
    var log: seq<AuditRow>

    function Db(): Database
      reads this
    {
      Database(organizations, subscriptions, users, log)
    }

    ghost predicate Valid()
      reads this
    {
      ValidDatabase(Db())
    }

    constructor (db: Database)
      requires ValidDatabase(db)
      ensures Valid() && Db() == db
    {
      organizations, subscriptions, users, log := db.organizations, db.subscriptions, db.users, db.log;
    }

    method Suspend(id: string) returns (failure: Option<Failure>)
      requires Valid()
      modifies this
      ensures Valid() && (Db(), failure) == Step(old(Db()), SuspendOrganization(id))
    {
      if id !in organizations || organizations[id].deleted {
        return Some(NotFound);
      }
      if organizations[id].suspended {
        return Some(AlreadySuspended);
      }
      organizations := organizations[id := organizations[id].(suspended := true)];
      log := log + [AuditRow(id, OrganizationSuspended)];
      return None;
    }

    method Unsuspend(id: string) returns (failure: Option<Failure>)
      requires Valid()
      modifies this
      ensures Valid() && (Db(), failure) == Step(old(Db()), UnsuspendOrganization(id))
    {
      if id !in organizations || organizations[id].deleted {
        return Some(NotFound);
      }
      if !organizations[id].suspended {
        return Some(NotSuspended);
      }
      organizations := organizations[id := organizations[id].(suspended := false)];
      log := log + [AuditRow(id, OrganizationUnsuspended)];
      return None;
    }

    method Delete(id: string, actorOrgId: string) returns (failure: Option<Failure>)
      requires Valid()
      modifies this
      ensures Valid() && (Db(), failure) == Step(old(Db()), DeleteOrganization(id, actorOrgId))
    {
      if id !in organizations || organizations[id].deleted {
        return Some(NotFound);
      }
      if organizations[id].platform {
        return Some(PlatformOrganization);
      }
      if id == actorOrgId {
        return Some(OwnOrganization);
      }
      if organizations[id].partner {
        return Some(PartnerOrganization);
      }
      var members := Members(users, id);
      organizations := organizations[id := organizations[id].(deleted := true, suspended := true)];
      if |members| > 0 {
        users := DeleteMembers(users, id);
      } else {
        NobodyToDelete(users, id);
      }
      log := log + [AuditRow(id, OrganizationDeleted(|members|))];
      return None;
    }

    method SetPlan(id: string, newPlan: Plan) returns (failure: Option<Failure>)
      requires Valid()
      modifies this
      ensures Valid() && (Db(), failure) == Step(old(Db()), ChangePlan(id, newPlan))
    {
      if id !in organizations || organizations[id].deleted || organizations[id].subscriptionId.None? {
        return Some(NoSubscription);
      }
      var sub := organizations[id].subscriptionId.value;
      var previous := subscriptions[sub];
      if previous == newPlan {
        return Some(SamePlan);
      }
      subscriptions := subscriptions[sub := newPlan];
      log := log + [AuditRow(sub, PlanChanged(previous, newPlan))];
      return None;
    }

    method Configure(id: string, enabled: bool, plan: Option<Plan>) returns (failure: Option<Failure>)
      requires Valid()
      modifies this
      ensures Valid() && (Db(), failure) == Step(old(Db()), ConfigureInternalAccount(id, enabled, plan))
    {
      if id !in organizations || organizations[id].deleted {
        return Some(NotFound);
      }
      var org := organizations[id];
      if org.subscriptionId.None? {
        return Some(NoSubscription);
      }
      var chosen := if plan.Some? then plan.value else Kurumsal;
      organizations := organizations[id := org.(internalAccount := enabled)];
      if enabled {
        subscriptions := subscriptions[org.subscriptionId.value := chosen];
      }
      log := log + [AuditRow(id, InternalAccountConfigured(enabled, if enabled then Some(chosen) else None))];
      return None;
    }

    method SetRole(id: string, role: Role) returns (failure: Option<Failure>)
      requires Valid()
      modifies this
      ensures Valid() && (Db(), failure) == Step(old(Db()), ChangeUserRole(id, role))
    {
      if id !in users || users[id].deleted {
        return Some(NotFound);
      }
      var user := users[id];
      if user.role == role {
        return Some(SameRole);
      }
      if user.role == SuperAdmin || role == SuperAdmin {
        return Some(SuperAdminRole);
      }
      users := users[id := user.(role := role)];
      log := log + [AuditRow(id, UserRoleChanged(user.role, role))];
      return None;
    }

    method SuspendAccount(id: string) returns (failure: Option<Failure>)
      requires Valid()
      modifies this
      ensures Valid() && (Db(), failure) == Step(old(Db()), SuspendUser(id))
    {
      if id !in users || users[id].deleted {
        return Some(NotFound);
      }
      if users[id].suspended {
        return Some(AlreadySuspended);
      }
      if users[id].role == SuperAdmin {
        return Some(SuperAdminAccount);
      }
      users := users[id := users[id].(suspended := true)];
      log := log + [AuditRow(id, UserSuspended)];
      return None;
    }

    method UnsuspendAccount(id: string) returns (failure: Option<Failure>)
      requires Valid()
      modifies this
      ensures Valid() && (Db(), failure) == Step(old(Db()), UnsuspendUser(id))
    {
      if id !in users || users[id].deleted {
        return Some(NotFound);
      }
      if !users[id].suspended {
        return Some(NotSuspended);
      }
      users := users[id := users[id].(suspended := false)];
      log := log + [AuditRow(id, UserUnsuspended)];
      return None;
    }
  }

  lemma NobodyToDelete(users: map<string, User>, organizationId: string)
    requires |Members(users, organizationId)| == 0
    ensures DeleteMembers(users, organizationId) == users
  {
    forall id <- users ensures !IsMember(users[id], organizationId) {
      assert id !in Members(users, organizationId);
    }
  }

  // ----- Reading the log back -----

  /** What one row says about the tables. The rows alone decide: nothing else of an operation is known here. */
  function ReplayRow(db: Database, row: AuditRow): Database {
    var id := row.resourceId;
    match row.action
    case OrganizationSuspended =>
      if id !in db.organizations then db
      else db.(organizations := db.organizations[id := db.organizations[id].(suspended := true)])
    case OrganizationUnsuspended =>
      if id !in db.organizations then db
      else db.(organizations := db.organizations[id := db.organizations[id].(suspended := false)])
    case OrganizationDeleted(_) =>
      if id !in db.organizations then db
      else
        var org := db.organizations[id].(deleted := true, suspended := true);
        db.(organizations := db.organizations[id := org], users := DeleteMembers(db.users, id))
    case PlanChanged(_, newPlan) => db.(subscriptions := db.subscriptions[id := newPlan])
    case InternalAccountConfigured(enabled, plan) =>
      if id in db.organizations then
        var org := db.organizations[id];
        db.(organizations := db.organizations[id := org.(internalAccount := enabled)],
            subscriptions := if plan.Some? && org.subscriptionId.Some?
                             then db.subscriptions[org.subscriptionId.value := plan.value] else db.subscriptions)
      else db
    case UserRoleChanged(_, newRole) =>
      if id in db.users then db.(users := db.users[id := db.users[id].(role := newRole)]) else db
    case UserSuspended =>
      if id in db.users then db.(users := db.users[id := db.users[id].(suspended := true)]) else db
    case UserUnsuspended =>
      if id in db.users then db.(users := db.users[id := db.users[id].(suspended := false)]) else db
  }

  function Replay(db: Database, rows: seq<AuditRow>): Database {
    if rows == [] then db else ReplayRow(Replay(db, rows[..|rows| - 1]), rows[|rows| - 1])
  }

  /** The row is true of the tables it was written against: what it calls previous was so, and it changed something. */
  predicate IsTrueOf(db: Database, row: AuditRow) {
    var id := row.resourceId;
    match row.action
    case OrganizationSuspended => IsOrganization(db, id) && !db.organizations[id].suspended
    case OrganizationUnsuspended => IsOrganization(db, id) && db.organizations[id].suspended
    case OrganizationDeleted(userCount) => IsOrganization(db, id) && userCount == |Members(db.users, id)|
    case PlanChanged(previous, next) => id in db.subscriptions && db.subscriptions[id] == previous != next
    case InternalAccountConfigured(enabled, plan) => IsOrganization(db, id) && (plan.Some? <==> enabled)
    case UserRoleChanged(previous, next) => IsUser(db, id) && db.users[id].role == previous != next
    case UserSuspended => IsUser(db, id) && !db.users[id].suspended
    case UserUnsuspended => IsUser(db, id) && db.users[id].suspended
  }

  function Run(db: Database, ops: seq<Op>): (r: Database)
    requires ValidDatabase(db)
    ensures ValidDatabase(r)
    decreases |ops|
  {
    if ops == [] then db
    else
      var before, op := Run(db, ops[..|ops| - 1]), ops[|ops| - 1];
      StepKeepsValid(before, op);
      Step(before, op).0
  }

  lemma {:induction false} StepKeepsValid(db: Database, op: Op)
    requires ValidDatabase(db)
    ensures ValidDatabase(Step(db, op).0)
  {
    hide Members, DeleteMembers;
    if Refusal(db, op).None? {
      var db' := Apply(db, op);
      forall id <- db'.organizations | db'.organizations[id].subscriptionId.Some?
        ensures db'.organizations[id].subscriptionId.value in db'.subscriptions
      {
        assert id in db.organizations && db'.organizations[id].subscriptionId == db.organizations[id].subscriptionId;
      }
    }
  }

  lemma {:induction false} AppliedIsTrue(db: Database, op: Op)
    requires ValidDatabase(db) && Refusal(db, op).None?
    ensures var log := Apply(db, op).log;
      |log| == |db.log| + 1 && log[..|db.log|] == db.log && IsTrueOf(db, log[|db.log|])
  {
    hide Members, DeleteMembers;
  }

  lemma {:induction false} AppliedIsReplayed(db: Database, op: Op)
    requires ValidDatabase(db) && Refusal(db, op).None?
    ensures var db' := Apply(db, op);
      |db'.log| == |db.log| + 1 && db' == ReplayRow(db, db'.log[|db.log|]).(log := db'.log)
  {
    hide Members, DeleteMembers;
  }

  /** One step writes at most one row, a true one, and replaying that row is what the step did. */
  lemma {:induction false} StepIsItsRow(db: Database, op: Op)
    requires ValidDatabase(db)
    ensures var db' := Step(db, op).0;
      && ValidDatabase(db')
      && (db' == db || exists row :: db'.log == db.log + [row] && IsTrueOf(db, row)
                                    && db' == ReplayRow(db, row).(log := db'.log))
  {
    hide ValidDatabase, Refusal, Apply, IsTrueOf, ReplayRow;
    StepKeepsValid(db, op);
    if Refusal(db, op).None? {
      AppliedIsTrue(db, op);
      AppliedIsReplayed(db, op);
      var db' := Apply(db, op);
      var row := db'.log[|db.log|];
      assert db'.log == db.log + [row];
    }
  }

  /** The rows a run writes: all true, and their replay is what the run did. */
  lemma {:induction false} RunIsItsRows(start: Database, ops: seq<Op>) returns (rows: seq<AuditRow>)
    requires ValidDatabase(start)
    ensures Run(start, ops).log == start.log + rows
    ensures Replay(start, rows) == Run(start, ops).(log := start.log)
    ensures forall i :: 0 <= i < |rows| ==> IsTrueOf(Replay(start, rows[..i]), rows[i])
    decreases |ops|
  {
    hide Refusal, Apply, Step, IsTrueOf, ReplayRow, ValidDatabase;
    rows := [];
    if ops != [] {
      var n := |ops| - 1;
      rows := RunIsItsRows(start, ops[..n]);
      var before, now := Run(start, ops[..n]), Run(start, ops);
      assert now == Step(before, ops[n]).0;
      StepIsItsRow(before, ops[n]);
      if now != before {
        var row :| now.log == before.log + [row] && IsTrueOf(before, row)
          && now == ReplayRow(before, row).(log := now.log);
        OneMoreRow(start, before, rows, row, now);
        rows := rows + [row];
      }
    }
  }

  /**
   Over every run, replaying the rows written since the start rebuilds organisations, plans and users, and
   every one of those rows was true of the replayed tables just before it.
   */
  lemma {:induction false} LogRebuildsState(start: Database, ops: seq<Op>)
    requires ValidDatabase(start)
    ensures var now := Run(start, ops);
      && |start.log| <= |now.log| && now.log[..|start.log|] == start.log
      && (var rows := now.log[|start.log|..];
          && Replay(start, rows) == now.(log := start.log)
          && forall i :: 0 <= i < |rows| ==> IsTrueOf(Replay(start, rows[..i]), rows[i]))
  {
    hide IsTrueOf, Replay, ValidDatabase, Run;
    var rows := RunIsItsRows(start, ops);
    assert Run(start, ops).log[|start.log|..] == rows;
  }

  /** Replaying one true row more. */
  lemma {:induction false} OneMoreRow(
    start: Database, before: Database, rows: seq<AuditRow>, row: AuditRow, now: Database)
    requires Replay(start, rows) == before.(log := start.log) && now == ReplayRow(before, row).(log := now.log)
    requires IsTrueOf(before, row) && forall i :: 0 <= i < |rows| ==> IsTrueOf(Replay(start, rows[..i]), rows[i])
    ensures Replay(start, rows + [row]) == now.(log := start.log)
    ensures var more := rows + [row]; forall i :: 0 <= i < |more| ==> IsTrueOf(Replay(start, more[..i]), more[i])
  {
    hide IsTrueOf, ReplayRow;
    var more := rows + [row];
    assert more[..|rows|] == rows;
    RowsReadTables(before, start.log, row);
    forall i | 0 <= i < |more| ensures IsTrueOf(Replay(start, more[..i]), more[i]) {
      if i < |rows| {
        assert more[..i] == rows[..i];
      }
    }
  }

  lemma RowsReadTables(db: Database, log: seq<AuditRow>, row: AuditRow)
    ensures IsTrueOf(db.(log := log), row) == IsTrueOf(db, row)
    ensures ReplayRow(db.(log := log), row) == ReplayRow(db, row).(log := log)
  {
    hide Members, DeleteMembers;
  }

  // ----- Suspensions alternate -----

  predicate IsSuspension(row: AuditRow, id: string, ofUser: bool) {
    row.resourceId == id &&
    if ofUser then row.action == UserSuspended || row.action == UserUnsuspended
    else row.action == OrganizationSuspended || row.action == OrganizationUnsuspended
  }

  /** Whether the tables show the target as suspended. */
  predicate ShowsSuspended(db: Database, id: string, ofUser: bool) {
    if ofUser then id in db.users && db.users[id].suspended
    else id in db.organizations && db.organizations[id].suspended
  }

  predicate Suspends(row: AuditRow) {
    row.action == UserSuspended || row.action == OrganizationSuspended
  }

  /** A deleted organisation, which no action changes any more. */
  predicate IsGone(db: Database, id: string, ofUser: bool) {
    !ofUser && id in db.organizations && db.organizations[id].deleted
  }

  lemma {:induction false} RowSetsFlag(db: Database, row: AuditRow, id: string, ofUser: bool)
    requires IsTrueOf(db, row)
    ensures IsGone(db, id, ofUser) ==> IsGone(ReplayRow(db, row), id, ofUser)
    ensures IsSuspension(row, id, ofUser) ==> !IsGone(ReplayRow(db, row), id, ofUser)
    ensures IsGone(ReplayRow(db, row), id, ofUser) ||
      ShowsSuspended(ReplayRow(db, row), id, ofUser)
        == if IsSuspension(row, id, ofUser) then Suspends(row) else ShowsSuspended(db, id, ofUser)
    ensures IsSuspension(row, id, ofUser) ==>
      !IsGone(db, id, ofUser) && ShowsSuspended(db, id, ofUser) != Suspends(row)
  {
  }

  /** With no suspension row of the target in between its flag stays, unless the target was deleted by then. */
  lemma {:induction false} FlagStays(
    start: Database, rows: seq<AuditRow>, from: nat, until: nat, id: string, ofUser: bool)
    requires from <= until <= |rows|
    requires forall i :: 0 <= i < |rows| ==> IsTrueOf(Replay(start, rows[..i]), rows[i])
    requires forall i :: from <= i < until ==> !IsSuspension(rows[i], id, ofUser)
    ensures IsGone(Replay(start, rows[..from]), id, ofUser) ==> IsGone(Replay(start, rows[..until]), id, ofUser)
    ensures IsGone(Replay(start, rows[..until]), id, ofUser)
         || ShowsSuspended(Replay(start, rows[..until]), id, ofUser)
              == ShowsSuspended(Replay(start, rows[..from]), id, ofUser)
    decreases until
  {
    hide IsTrueOf, ReplayRow, ShowsSuspended, IsGone;
    if from < until {
      FlagStays(start, rows, from, until - 1, id, ofUser);
      assert rows[..until][..until - 1] == rows[..until - 1];
      RowSetsFlag(Replay(start, rows[..until - 1]), rows[until - 1], id, ofUser);
    }
  }

  /** Two suspension rows of one target with none between them. */
  predicate AreNeighbours(rows: seq<AuditRow>, i: nat, j: nat, id: string, ofUser: bool) {
    && i < j < |rows| && IsSuspension(rows[i], id, ofUser) && IsSuspension(rows[j], id, ofUser)
    && forall k :: i < k < j ==> !IsSuspension(rows[k], id, ofUser)
  }

  lemma {:induction false} TrueRowsAlternate(
    start: Database, rows: seq<AuditRow>, i: nat, j: nat, id: string, ofUser: bool)
    requires forall k :: 0 <= k < |rows| ==> IsTrueOf(Replay(start, rows[..k]), rows[k])
    requires AreNeighbours(rows, i, j, id, ofUser)
    ensures Suspends(rows[i]) != Suspends(rows[j])
  {
    hide IsTrueOf, ReplayRow, ShowsSuspended, IsSuspension, Suspends, IsGone;
    FlagStays(start, rows, i + 1, j, id, ofUser);
    var before, after := Replay(start, rows[..i]), Replay(start, rows[..i + 1]);
    assert rows[..i + 1][..i] == rows[..i];
    assert after == ReplayRow(before, rows[i]);
    RowSetsFlag(before, rows[i], id, ofUser);
    RowSetsFlag(Replay(start, rows[..j]), rows[j], id, ofUser);
  }

  /** The rows a run added to the log. */
  ghost function RowsOfRun(start: Database, ops: seq<Op>): seq<AuditRow>
    requires ValidDatabase(start)
  {
    var log := Run(start, ops).log;
    if |start.log| <= |log| then log[|start.log|..] else []
  }

  /** In every run, neighbouring suspension rows of one organisation or user are of opposite kinds. */
  lemma {:induction false} SuspensionsAlternate(start: Database, ops: seq<Op>, i: nat, j: nat, id: string, ofUser: bool)
    requires ValidDatabase(start) && AreNeighbours(RowsOfRun(start, ops), i, j, id, ofUser)
    ensures Suspends(RowsOfRun(start, ops)[i]) != Suspends(RowsOfRun(start, ops)[j])
  {
    hide IsTrueOf, ReplayRow, Step, AreNeighbours, Run, Replay;
    LogRebuildsState(start, ops);
    TrueRowsAlternate(start, RowsOfRun(start, ops), i, j, id, ofUser);
  }

  // ----- Super admins -----

  lemma {:induction false} StepKeepsSuperAdmins(db: Database, op: Op, id: string)
    requires ValidDatabase(db) && id in db.users
    ensures var db' := Step(db, op).0;
      && id in db'.users
      && (db'.users[id].role == SuperAdmin <==> db.users[id].role == SuperAdmin)
      && (db.users[id].role == SuperAdmin && !db.users[id].suspended ==> !db'.users[id].suspended)
  {
  }

  /** No run makes or unmakes a super admin, or suspends one. */
  lemma {:induction false} SuperAdminsAreFixed(start: Database, ops: seq<Op>, id: string)
    requires ValidDatabase(start) && id in start.users
    ensures id in Run(start, ops).users
    ensures Run(start, ops).users[id].role == SuperAdmin <==> start.users[id].role == SuperAdmin
    ensures start.users[id].role == SuperAdmin && !start.users[id].suspended ==> !Run(start, ops).users[id].suspended
    decreases |ops|
  {
    hide Step;
    if ops != [] {
      var n := |ops| - 1;
      SuperAdminsAreFixed(start, ops[..n], id);
      StepKeepsSuperAdmins(Run(start, ops[..n]), ops[n], id);
    }
  }

  // ----- Every action, field by field -----

  /** Suspending takes an organisation that is there and not suspended, and changes its flag alone. */
  lemma {:induction false} SuspendOnFields(db: Database, id: string)
    requires ValidDatabase(db)
    ensures var (db', failure) := Step(db, SuspendOrganization(id));
            var there := id in db.organizations && !db.organizations[id].deleted;
      && (failure == Some(NotFound) <==> !there)
      && (failure == Some(AlreadySuspended) <==> there && db.organizations[id].suspended)
      && (failure == None <==> there && !db.organizations[id].suspended)
      && (failure.Some? ==> db' == db)
      && (failure.None? ==> db' == db.(
            organizations := db.organizations[id := db.organizations[id].(suspended := true)],
            log := db.log + [AuditRow(id, OrganizationSuspended)]))
  {
  }

  lemma {:induction false} UnsuspendOnFields(db: Database, id: string)
    requires ValidDatabase(db)
    ensures var (db', failure) := Step(db, UnsuspendOrganization(id));
            var there := id in db.organizations && !db.organizations[id].deleted;
      && (failure == Some(NotFound) <==> !there)
      && (failure == Some(NotSuspended) <==> there && !db.organizations[id].suspended)
      && (failure == None <==> there && db.organizations[id].suspended)
      && (failure.Some? ==> db' == db)
      && (failure.None? ==> db' == db.(
            organizations := db.organizations[id := db.organizations[id].(suspended := false)],
            log := db.log + [AuditRow(id, OrganizationUnsuspended)]))
  {
  }

  /** Deleting spares the platform, the actor's own and partner organisations; exactly the live members go with it. */
  lemma {:induction false} DeleteOnFields(db: Database, id: string, actorOrgId: string)
    requires ValidDatabase(db)
    ensures var (db', failure) := Step(db, DeleteOrganization(id, actorOrgId));
            var there := id in db.organizations && !db.organizations[id].deleted;
            var gone := set u | u in db.users && db.users[u].organizationId == Some(id) && !db.users[u].deleted;
      && (failure == Some(NotFound) <==> !there)
      && (failure == Some(PlatformOrganization) <==> there && db.organizations[id].platform)
      && (failure == Some(OwnOrganization) <==> there && !db.organizations[id].platform && id == actorOrgId)
      && (failure == Some(PartnerOrganization) <==>
            there && !db.organizations[id].platform && id != actorOrgId && db.organizations[id].partner)
      && (failure == None <==>
            there && !db.organizations[id].platform && id != actorOrgId && !db.organizations[id].partner)
      && (failure.Some? ==> db' == db)
      && (failure.None? ==>
            && db'.organizations
                 == db.organizations[id := db.organizations[id].(deleted := true, suspended := true)]
            && db'.subscriptions == db.subscriptions
            && db'.users.Keys == db.users.Keys
            && (forall u <- db.users :: db'.users[u] == db.users[u].(deleted := db.users[u].deleted || u in gone))
            && db'.log == db.log + [AuditRow(id, OrganizationDeleted(|gone|))])
  {
    assert Members(db.users, id)
        == set u | u in db.users && db.users[u].organizationId == Some(id) && !db.users[u].deleted;
  }

  /** A plan change takes another plan than the present one, and its row names the subscription and both plans. */
  lemma {:induction false} ChangePlanOnFields(db: Database, id: string, newPlan: Plan)
    requires ValidDatabase(db)
    ensures var (db', failure) := Step(db, ChangePlan(id, newPlan));
            var there := id in db.organizations && !db.organizations[id].deleted
                         && db.organizations[id].subscriptionId.Some?;
      && (failure == Some(NoSubscription) <==> !there)
      && (there ==>
            var sub := db.organizations[id].subscriptionId.value;
            && (failure == Some(SamePlan) <==> db.subscriptions[sub] == newPlan)
            && (failure == None <==> db.subscriptions[sub] != newPlan)
            && (failure.None? ==> db' == db.(
                  subscriptions := db.subscriptions[sub := newPlan],
                  log := db.log + [AuditRow(sub, PlanChanged(db.subscriptions[sub], newPlan))])))
      && (failure.Some? ==> db' == db)
  {
  }

  /** An internal account gets the plan asked for, or the corporate one; switching it off leaves the plan. */
  lemma {:induction false} ConfigureOnFields(db: Database, id: string, enabled: bool, plan: Option<Plan>)
    requires ValidDatabase(db)
    ensures var (db', failure) := Step(db, ConfigureInternalAccount(id, enabled, plan));
            var there := id in db.organizations && !db.organizations[id].deleted;
      && (failure == Some(NotFound) <==> !there)
      && (failure == Some(NoSubscription) <==> there && db.organizations[id].subscriptionId.None?)
      && (failure == None <==> there && db.organizations[id].subscriptionId.Some?)
      && (failure.Some? ==> db' == db)
      && (failure.None? ==>
            && db'.users == db.users
            && db'.organizations == db.organizations[id := db.organizations[id].(internalAccount := enabled)]
            && var sub := db.organizations[id].subscriptionId.value;
            && (!enabled ==>
                  && db'.subscriptions == db.subscriptions
                  && db'.log == db.log + [AuditRow(id, InternalAccountConfigured(false, None))])
            && (enabled && plan.Some? ==>
                  && db'.subscriptions == db.subscriptions[sub := plan.value]
                  && db'.log == db.log + [AuditRow(id, InternalAccountConfigured(true, Some(plan.value)))])
            && (enabled && plan.None? ==>
                  && db'.subscriptions == db.subscriptions[sub := Kurumsal]
                  && db'.log == db.log + [AuditRow(id, InternalAccountConfigured(true, Some(Kurumsal)))]))
  {
  }

  /** A role change takes another role, neither from nor to super admin, and its row names both roles. */
  lemma {:induction false} ChangeRoleOnFields(db: Database, id: string, role: Role)
    requires ValidDatabase(db)
    ensures var (db', failure) := Step(db, ChangeUserRole(id, role));
            var there := id in db.users && !db.users[id].deleted;
      && (failure == Some(NotFound) <==> !there)
      && (there ==>
            var before := db.users[id].role;
            && (failure == Some(SameRole) <==> before == role)
            && (failure == Some(SuperAdminRole) <==> before != role && (before == SuperAdmin || role == SuperAdmin))
            && (failure == None <==> before != role && before != SuperAdmin && role != SuperAdmin)
            && (failure.None? ==> db' == db.(
                  users := db.users[id := db.users[id].(role := role)],
                  log := db.log + [AuditRow(id, UserRoleChanged(before, role))])))
      && (failure.Some? ==> db' == db)
  {
  }

  /** Suspending a user spares super admins; both ways only the flag changes. */
  lemma {:induction false} UserSuspensionOnFields(db: Database, id: string)
    requires ValidDatabase(db)
    ensures var (on, refused) := Step(db, SuspendUser(id));
            var (off, refused') := Step(db, UnsuspendUser(id));
            var there := id in db.users && !db.users[id].deleted;
      && (refused == Some(NotFound) <==> !there) && (refused' == Some(NotFound) <==> !there)
      && (there ==>
            var user := db.users[id];
            && (refused == Some(AlreadySuspended) <==> user.suspended)
            && (refused == Some(SuperAdminAccount) <==> !user.suspended && user.role == SuperAdmin)
            && (refused == None <==> !user.suspended && user.role != SuperAdmin)
            && (refused' == Some(NotSuspended) <==> !user.suspended)
            && (refused' == None <==> user.suspended)
            && (refused.None? ==> on == db.(
                  users := db.users[id := user.(suspended := true)], log := db.log + [AuditRow(id, UserSuspended)]))
            && (refused'.None? ==> off == db.(
                  users := db.users[id := user.(suspended := false)], log := db.log + [AuditRow(id, UserUnsuspended)])))
      && (refused.Some? ==> on == db) && (refused'.Some? ==> off == db)
  {
  }
}
