/** Organizations, their users and the event log beside them. Every operation
    is one transaction: it either lands whole, with its events, or leaves the
    store as it was. New ids, the clock and the order of a grouped query are
    parameters. */
module Identity {
  import opened Wrappers
  import Sequences

  type Id = string

  datatype Role = Member | Admin | Owner {
    function Rank(): nat {
      match this
      case Member => 0
      case Admin => 1
      case Owner => 2
    }
  }

  datatype Error = Forbidden | LoginTaken | NotFound | LastOwner

  datatype User = User(organization: Id, login: string, role: Role, admin: bool)

  datatype Event =
    | OrganizationCreated
    | UserCreated(user: Id, role: Role)
    | RoleChanged(user: Id, from: Role, to: Role)
    | AdminGranted(user: Id)
    | AdminRevoked(user: Id)
    | LogPruned(removed: nat, cutoff: int)
    | Otherwise

  /** `actor` is a user, or the system. */
  datatype Record = Record(organization: Id, actor: Option<Id>, event: Event, at: int)

  datatype State = State(organizations: set<Id>, users: map<Id, User>, log: seq<Record>)

  /** Who asks, with the organization and the role the request began under. */
  datatype Scope = Scope(user: Id, organization: Id, role: Role)

  const EMPTY := State({}, map[], [])
  const MS_PER_DAY := 86_400_000

  // ---------------------------------------------------------------------
  // The operations
  // ---------------------------------------------------------------------

  datatype Operation =
    | CreatePersonal(organization: Id, id: Id, login: string)
    | CreateUser(scope: Scope, id: Id, login: string, role: Role)
    | ChangeRole(scope: Scope, target: Id, to: Role)
    | SetAdmin(login: string, granted: bool)
    | Note(organization: Id)

  datatype Answer = Done | Unchanged | Failed(error: Error)

  predicate Taken(users: map<Id, User>, login: string) {
    exists id :: id in users && users[id].login == login
  }

  predicate MayGrant(scope: Scope, role: Role) {
    scope.role.Rank() >= Admin.Rank() && role.Rank() <= scope.role.Rank()
  }

  predicate AnotherOwner(users: map<Id, User>, organization: Id, excluded: Id) {
    exists id :: id in users && id != excluded && users[id].organization == organization && users[id].role == Owner
  }

  /** A target as a scope sees it: in its own organization only. */
  predicate InScope(users: map<Id, User>, scope: Scope, target: Id) {
    target in users && users[target].organization == scope.organization
  }

  ghost predicate Enabled(s: State, op: Operation) {
    match op
    case CreatePersonal(organization, id, _) => organization !in s.organizations && id !in s.users
    case CreateUser(scope, id, _, _) => scope.organization in s.organizations && id !in s.users
    case _ => true
  }

  ghost function AnswerOf(s: State, op: Operation): Answer {
    match op
    case CreatePersonal(_, _, login) => if Taken(s.users, login) then Failed(LoginTaken) else Done
    case CreateUser(scope, _, login, role) =>
      if !MayGrant(scope, role) then Failed(Forbidden)
      else if Taken(s.users, login) then Failed(LoginTaken)
      else Done
    case ChangeRole(scope, target, to) =>
      if !MayGrant(scope, to) then Failed(Forbidden)
      else if !InScope(s.users, scope, target) then Failed(NotFound)
      else if s.users[target].role.Rank() > scope.role.Rank() then Failed(Forbidden)
      else if s.users[target].role == to then Unchanged
      else if s.users[target].role == Owner && !AnotherOwner(s.users, scope.organization, target) then Failed(LastOwner)
      else Done
    case SetAdmin(login, granted) =>
      if !Taken(s.users, login) then Failed(NotFound)
      else if s.users[ByLogin(s.users, login)].admin == granted then Unchanged
      else Done
    case Note(_) => Done
  }

  ghost function ByLogin(users: map<Id, User>, login: string): (id: Id)
    requires Taken(users, login)
    ensures id in users && users[id].login == login
  {
    var id :| id in users && users[id].login == login;
    id
  }

  function Appended(s: State, organization: Id, actor: Option<Id>, event: Event, now: int): State {
    s.(log := s.log + [Record(organization, actor, event, now)])
  }

  ghost function Step(s: State, op: Operation, now: int): State {
    if AnswerOf(s, op) != Done then s
    else
      match op
      case CreatePersonal(organization, id, login) =>
        var created := s.(
          organizations := s.organizations + {organization},
          users := s.users[id := User(organization, login, Owner, false)]);
        Appended(
          Appended(created, organization, None, OrganizationCreated, now),
          organization, None, UserCreated(id, Owner), now)
      case CreateUser(scope, id, login, role) =>
        Appended(
          s.(users := s.users[id := User(scope.organization, login, role, false)]),
          scope.organization, Some(scope.user), UserCreated(id, role), now)
      case ChangeRole(scope, target, to) =>
        Appended(
          s.(users := s.users[target := s.users[target].(role := to)]),
          scope.organization, Some(scope.user), RoleChanged(target, s.users[target].role, to), now)
      case SetAdmin(login, granted) =>
        var id := ByLogin(s.users, login);
        Appended(
          s.(users := s.users[id := s.users[id].(admin := granted)]),
          s.users[id].organization, None, if granted then AdminGranted(id) else AdminRevoked(id), now)
      case Note(organization) => Appended(s, organization, None, Otherwise, now)
  }

  // ---------------------------------------------------------------------
  // What every operation keeps
  // ---------------------------------------------------------------------

  predicate Owns(users: map<Id, User>, id: Id, organization: Id) {
    id in users && users[id].organization == organization && users[id].role == Owner
  }

  ghost predicate Owned(s: State) {
    forall organization :: organization in s.organizations ==> exists id :: Owns(s.users, id, organization)
  }

  ghost predicate LoginsUnique(s: State) {
    forall a, b :: a in s.users && b in s.users && s.users[a].login == s.users[b].login ==> a == b
  }

  ghost predicate Housed(s: State) {
    forall id :: id in s.users ==> s.users[id].organization in s.organizations
  }

  ghost predicate Inv(s: State) {
    Owned(s) && LoginsUnique(s) && Housed(s)
  }

  /** Only a change of role takes an owner's role. */
  lemma OwnerStays(s: State, op: Operation, now: int, organization: Id, id: Id)
    requires Enabled(s, op) && Owns(s.users, id, organization)
    requires op.ChangeRole? ==> op.target != id
    ensures Owns(Step(s, op, now).users, id, organization)
  {
  }

  /** An owner who steps down leaves another one. */
  lemma OwnerLeft(s: State, op: Operation, now: int, organization: Id, id: Id) returns (owner: Id)
    requires Enabled(s, op) && Owns(s.users, id, organization) && op.ChangeRole? && op.target == id
    ensures Owns(Step(s, op, now).users, owner, organization)
  {
    owner := id;
    if AnswerOf(s, op) == Done {
      assert AnotherOwner(s.users, op.scope.organization, id);
      owner :| owner in s.users && owner != id && s.users[owner].organization == organization
        && s.users[owner].role == Owner;
    }
  }

  lemma OwnerFounds(s: State, op: Operation, now: int, organization: Id)
    requires Enabled(s, op) && organization in Step(s, op, now).organizations - s.organizations
    ensures op.CreatePersonal? && Owns(Step(s, op, now).users, op.id, organization)
  {
  }

  lemma OwnedKeeps(s: State, op: Operation, now: int)
    requires Inv(s) && Enabled(s, op)
    ensures Owned(Step(s, op, now))
  {
    var t := Step(s, op, now);
    hide Step, AnswerOf;
    forall organization | organization in t.organizations
      ensures exists id :: Owns(t.users, id, organization)
    {
      if organization in s.organizations {
        var id :| Owns(s.users, id, organization);
        if op.ChangeRole? && op.target == id {
          var owner := OwnerLeft(s, op, now, organization, id);
        } else {
          OwnerStays(s, op, now, organization, id);
        }
      } else {
        OwnerFounds(s, op, now, organization);
      }
    }
  }

  lemma StepKeeps(s: State, op: Operation, now: int)
    requires Inv(s) && Enabled(s, op)
    ensures Inv(Step(s, op, now))
  {
    OwnedKeeps(s, op, now);
  }

  // ---------------------------------------------------------------------
  // Who may do what
  // ---------------------------------------------------------------------

  /** No operation gives or takes a role above the one it was asked with: a
      member changes nobody, an admin neither makes nor unmakes an owner, and
      nobody reaches into another organization. No user ever leaves. */
  lemma RolesCapped(s: State, op: Operation, now: int, id: Id)
    requires Inv(s) && Enabled(s, op)
    ensures var t := Step(s, op, now);
      && (id in s.users ==>
            id in t.users && t.users[id].organization == s.users[id].organization
            && t.users[id].login == s.users[id].login)
      && (id in t.users && !op.CreatePersonal? && (id in s.users ==> s.users[id].role != t.users[id].role) ==>
            && (op.CreateUser? || op.ChangeRole?)
            && op.scope.role != Member && t.users[id].organization == op.scope.organization
            && (op.scope.role == Admin ==>
                  t.users[id].role != Owner && (id in s.users ==> s.users[id].role != Owner)))
  {
  }

  /** A change of role, its refusals in their order: one beyond the role it is
      asked with, one of no user there, one of a user above that role, and one
      that would leave no owner. What is not refused lands, with its event. */
  lemma RoleLands(s: State, scope: Scope, target: Id, to: Role, now: int)
    requires Inv(s)
    ensures var op := ChangeRole(scope, target, to);
      var answer, t := AnswerOf(s, op), Step(s, op, now);
      if scope.role == Member || (to == Owner && scope.role == Admin) then answer == Failed(Forbidden) && t == s
      else if target !in s.users || s.users[target].organization != scope.organization then
        answer == Failed(NotFound) && t == s
      else
        var user := s.users[target];
        if user.role == Owner && scope.role == Admin then answer == Failed(Forbidden) && t == s
        else if user.role == to then answer == Unchanged && t == s
        else if user.role == Owner
          && forall id :: id in s.users && id != target && s.users[id].organization == user.organization ==>
               s.users[id].role != Owner
        then answer == Failed(LastOwner) && t == s
        else
          answer == Done
          && t == State(s.organizations, s.users[target := User(user.organization, user.login, to, user.admin)],
            s.log + [Record(scope.organization, Some(scope.user), RoleChanged(target, user.role, to), now)])
  {
  }

  /** A user joins the organization of the scope, below the same ceiling and
      under a login nobody has. */
  lemma UserLands(s: State, scope: Scope, id: Id, login: string, role: Role, now: int)
    requires Inv(s) && Enabled(s, CreateUser(scope, id, login, role))
    ensures var op := CreateUser(scope, id, login, role);
      var answer, t := AnswerOf(s, op), Step(s, op, now);
      if scope.role == Member || (role == Owner && scope.role == Admin) then answer == Failed(Forbidden) && t == s
      else if exists k :: k in s.users && s.users[k].login == login then answer == Failed(LoginTaken) && t == s
      else
        answer == Done
        && t == State(s.organizations, s.users[id := User(scope.organization, login, role, false)],
          s.log + [Record(scope.organization, Some(scope.user), UserCreated(id, role), now)])
  {
  }

  /** What the system does on its own: a personal user owns a new organization,
      and the flag of an instance admin is set as asked, each told once. */
  lemma SystemLands(s: State, op: Operation, now: int)
    requires Inv(s) && Enabled(s, op) && (op.CreatePersonal? || op.SetAdmin?)
    ensures var answer, t := AnswerOf(s, op), Step(s, op, now);
      var taken := exists k :: k in s.users && s.users[k].login == op.login;
      match op
      case CreatePersonal(organization, id, login) =>
        if taken then answer == Failed(LoginTaken) && t == s
        else
          answer == Done
          && t.organizations == s.organizations + {organization}
          && t.users == s.users[id := User(organization, login, Owner, false)]
          && t.log == s.log + [Record(organization, None, OrganizationCreated, now),
               Record(organization, None, UserCreated(id, Owner), now)]
      case SetAdmin(login, granted) =>
        if !taken then answer == Failed(NotFound) && t == s
        else
          forall id :: id in s.users && s.users[id].login == login ==>
            var user := s.users[id];
            if user.admin == granted then answer == Unchanged && t == s
            else
              answer == Done
              && t == State(s.organizations, s.users[id := User(user.organization, login, user.role, granted)],
                s.log + [Record(user.organization, None, if granted then AdminGranted(id) else AdminRevoked(id), now)])
      case _ => true
  {
    assert Taken(s.users, op.login) <==> exists k :: k in s.users && s.users[k].login == op.login;
    if op.CreatePersonal? {
      Sequences.Assoc(s.log, [Record(op.organization, None, OrganizationCreated, now)],
        [Record(op.organization, None, UserCreated(op.id, Owner), now)]);
    }
  }

  // ---------------------------------------------------------------------
  // The log tells the users
  // ---------------------------------------------------------------------

  datatype Standing = Standing(role: Role, admin: bool)

  function ReplayOne(standings: map<Id, Standing>, event: Event): map<Id, Standing> {
    match event
    case UserCreated(user, role) => standings[user := Standing(role, false)]
    case RoleChanged(user, _, to) =>
      if user in standings then standings[user := standings[user].(role := to)] else standings
    case AdminGranted(user) =>
      if user in standings then standings[user := standings[user].(admin := true)] else standings
    case AdminRevoked(user) =>
      if user in standings then standings[user := standings[user].(admin := false)] else standings
    case _ => standings
  }

  /** Roles and flags as the events of one organization give them. */
  function Replay(log: seq<Record>, organization: Id): map<Id, Standing>
    decreases |log|
  {
    if log == [] then map[]
    else
      var last := log[|log| - 1];
      var before := Replay(log[..|log| - 1], organization);
      if last.organization == organization then ReplayOne(before, last.event) else before
  }

  function StandingsOf(users: map<Id, User>, organization: Id): map<Id, Standing> {
    map id | id in users && users[id].organization == organization :: Standing(users[id].role, users[id].admin)
  }

  /** An event says a change that was one: from what stood ahead of it. */
  predicate Tells(standings: map<Id, Standing>, event: Event) {
    match event
    case UserCreated(user, _) => user !in standings
    case RoleChanged(user, from, to) => user in standings && standings[user].role == from != to
    case AdminGranted(user) => user in standings && !standings[user].admin
    case AdminRevoked(user) => user in standings && standings[user].admin
    case _ => true
  }

  predicate Truthful(log: seq<Record>)
    decreases |log|
  {
    log == []
    || (Truthful(log[..|log| - 1])
      && Tells(Replay(log[..|log| - 1], log[|log| - 1].organization), log[|log| - 1].event))
  }

  ghost predicate Rebuilds(s: State) {
    Truthful(s.log) && forall organization :: Replay(s.log, organization) == StandingsOf(s.users, organization)
  }

  lemma Grown(log: seq<Record>, record: Record)
    ensures var grown := log + [record];
      && grown != [] && grown[|grown| - 1] == record && grown[..|grown| - 1] == log
  {
  }

  /** One more event keeps the log and the users in step when it does to the
      replay what happened to the users. */
  lemma AppendRebuilds(s: State, users: map<Id, User>, record: Record)
    requires Rebuilds(s) && Tells(StandingsOf(s.users, record.organization), record.event)
    requires forall organization ::
      StandingsOf(users, organization) ==
        if organization == record.organization then ReplayOne(StandingsOf(s.users, organization), record.event)
        else StandingsOf(s.users, organization)
    ensures Rebuilds(State(s.organizations, users, s.log + [record]))
  {
    hide StandingsOf, ReplayOne, Tells;
    Grown(s.log, record);
    var t := State(s.organizations, users, s.log + [record]);
    forall organization ensures Replay(t.log, organization) == StandingsOf(users, organization) {
      assert Replay(s.log, organization) == StandingsOf(s.users, organization);
    }
    assert Replay(s.log, record.organization) == StandingsOf(s.users, record.organization);
  }

  lemma CreatedStands(users: map<Id, User>, id: Id, user: User, organization: Id)
    requires id !in users && !user.admin
    ensures StandingsOf(users[id := user], organization) ==
      if organization == user.organization
      then ReplayOne(StandingsOf(users, organization), UserCreated(id, user.role))
      else StandingsOf(users, organization)
  {
  }

  lemma RoleStands(users: map<Id, User>, id: Id, to: Role, organization: Id)
    requires id in users
    ensures StandingsOf(users[id := users[id].(role := to)], organization) ==
      if organization == users[id].organization
      then ReplayOne(StandingsOf(users, organization), RoleChanged(id, users[id].role, to))
      else StandingsOf(users, organization)
  {
  }

  lemma AdminStands(users: map<Id, User>, id: Id, granted: bool, organization: Id)
    requires id in users
    ensures StandingsOf(users[id := users[id].(admin := granted)], organization) ==
      if organization == users[id].organization
      then ReplayOne(StandingsOf(users, organization), if granted then AdminGranted(id) else AdminRevoked(id))
      else StandingsOf(users, organization)
  {
  }

  lemma CreateRebuilds(s: State, organizations: set<Id>, id: Id, user: User, actor: Option<Id>, now: int)
    requires Rebuilds(s) && id !in s.users && !user.admin
    ensures Rebuilds(State(organizations, s.users[id := user],
      s.log + [Record(user.organization, actor, UserCreated(id, user.role), now)]))
  {
    var users := s.users[id := user];
    forall organization
      ensures StandingsOf(users, organization) ==
        if organization == user.organization
        then ReplayOne(StandingsOf(s.users, organization), UserCreated(id, user.role))
        else StandingsOf(s.users, organization)
    {
      CreatedStands(s.users, id, user, organization);
    }
    hide Truthful, Replay, ReplayOne;
    AppendRebuilds(s, users, Record(user.organization, actor, UserCreated(id, user.role), now));
  }

  lemma RoleRebuilds(s: State, id: Id, to: Role, actor: Option<Id>, now: int)
    requires Rebuilds(s) && id in s.users && s.users[id].role != to
    ensures Rebuilds(State(s.organizations, s.users[id := s.users[id].(role := to)],
      s.log + [Record(s.users[id].organization, actor, RoleChanged(id, s.users[id].role, to), now)]))
  {
    var users := s.users[id := s.users[id].(role := to)];
    var event := RoleChanged(id, s.users[id].role, to);
    forall organization
      ensures StandingsOf(users, organization) ==
        if organization == s.users[id].organization then ReplayOne(StandingsOf(s.users, organization), event)
        else StandingsOf(s.users, organization)
    {
      RoleStands(s.users, id, to, organization);
    }
    hide Truthful, Replay, ReplayOne;
    AppendRebuilds(s, users, Record(s.users[id].organization, actor, event, now));
  }

  lemma AdminRebuilds(s: State, id: Id, granted: bool, now: int)
    requires Rebuilds(s) && id in s.users && s.users[id].admin != granted
    ensures Rebuilds(State(s.organizations, s.users[id := s.users[id].(admin := granted)],
      s.log + [Record(s.users[id].organization, None, if granted then AdminGranted(id) else AdminRevoked(id), now)]))
  {
    var users := s.users[id := s.users[id].(admin := granted)];
    var event := if granted then AdminGranted(id) else AdminRevoked(id);
    forall organization
      ensures StandingsOf(users, organization) ==
        if organization == s.users[id].organization then ReplayOne(StandingsOf(s.users, organization), event)
        else StandingsOf(s.users, organization)
    {
      AdminStands(s.users, id, granted, organization);
    }
    hide Truthful, Replay, ReplayOne;
    AppendRebuilds(s, users, Record(s.users[id].organization, None, event, now));
  }

  lemma NoteRebuilds(s: State, organization: Id, event: Event, now: int)
    requires Rebuilds(s) && (event.Otherwise? || event.OrganizationCreated? || event.LogPruned?)
    ensures Rebuilds(Appended(s, organization, None, event, now))
  {
    hide Truthful, Replay;
    AppendRebuilds(s, s.users, Record(organization, None, event, now));
  }

  lemma StepRebuilds(s: State, op: Operation, now: int)
    requires Rebuilds(s) && Enabled(s, op)
    ensures Rebuilds(Step(s, op, now))
  {
    hide Rebuilds;
    if AnswerOf(s, op) == Done {
      match op {
        case CreatePersonal(organization, id, login) =>
          NoteRebuilds(s, organization, OrganizationCreated, now);
          CreateRebuilds(Appended(s, organization, None, OrganizationCreated, now),
            s.organizations + {organization}, id, User(organization, login, Owner, false), None, now);
        case CreateUser(scope, id, login, role) =>
          CreateRebuilds(s, s.organizations, id, User(scope.organization, login, role, false), Some(scope.user), now);
        case ChangeRole(scope, target, to) => RoleRebuilds(s, target, to, Some(scope.user), now);
        case SetAdmin(login, granted) => AdminRebuilds(s, ByLogin(s.users, login), granted, now);
        case Note(organization) => NoteRebuilds(s, organization, Otherwise, now);
      }
    }
  }

  // ---------------------------------------------------------------------
  // Pruning
  // ---------------------------------------------------------------------

  function Kept(log: seq<Record>, cutoff: int): seq<Record>
    decreases |log|
  {
    if log == [] then []
    else
      var last := log[|log| - 1];
      Kept(log[..|log| - 1], cutoff) + if last.at < cutoff then [] else [last]
  }

  /** How many rows of an organization a log holds. */
  function RowsOf(log: seq<Record>, organization: Id): nat
    decreases |log|
  {
    if log == [] then 0
    else
      RowsOf(log[..|log| - 1], organization) + if log[|log| - 1].organization == organization then 1 else 0
  }

  function Expired(log: seq<Record>, organization: Id, cutoff: int): nat
    decreases |log|
  {
    if log == [] then 0
    else
      var last := log[|log| - 1];
      Expired(log[..|log| - 1], organization, cutoff)
      + if last.organization == organization && last.at < cutoff then 1 else 0
  }

  function Notices(log: seq<Record>, groups: seq<Id>, cutoff: int, now: int): seq<Record>
    decreases |groups|
  {
    if groups == [] then []
    else
      var last := groups[|groups| - 1];
      Notices(log, groups[..|groups| - 1], cutoff, now)
      + [Record(last, None, LogPruned(Expired(log, last, cutoff), cutoff), now)]
  }

  /** The organizations that lose rows, each once. */
  ghost predicate Groups(log: seq<Record>, cutoff: int, groups: seq<Id>) {
    && (forall organization :: organization in groups <==> Expired(log, organization, cutoff) > 0)
    && (forall i, j :: 0 <= i < j < |groups| ==> groups[i] != groups[j])
  }

  function Pruned(s: State, groups: seq<Id>, cutoff: int, now: int): State {
    s.(log := Kept(s.log, cutoff) + Notices(s.log, groups, cutoff, now))
  }

  /** Of every organization the log loses as many rows as it counted. */
  lemma {:induction false} PruneCounts(log: seq<Record>, organization: Id, cutoff: int)
    ensures RowsOf(log, organization) == RowsOf(Kept(log, cutoff), organization) + Expired(log, organization, cutoff)
    decreases |log|
  {
    if log != [] {
      var last := log[|log| - 1];
      PruneCounts(log[..|log| - 1], organization, cutoff);
      if last.at < cutoff {
        Sequences.Empty(Kept(log[..|log| - 1], cutoff));
      } else {
        Grown(Kept(log[..|log| - 1], cutoff), last);
      }
    }
  }

  function Sum(log: seq<Record>, groups: seq<Id>, cutoff: int): nat
    decreases |groups|
  {
    if groups == [] then 0
    else Sum(log, groups[..|groups| - 1], cutoff) + Expired(log, groups[|groups| - 1], cutoff)
  }

  lemma {:induction false} NoticeOfEach(log: seq<Record>, groups: seq<Id>, cutoff: int, now: int)
    ensures var notices := Notices(log, groups, cutoff, now);
      && |notices| == |groups|
      && forall i :: 0 <= i < |groups| ==>
        notices[i] == Record(groups[i], None, LogPruned(Expired(log, groups[i], cutoff), cutoff), now)
    decreases |groups|
  {
    if groups != [] {
      NoticeOfEach(log, groups[..|groups| - 1], cutoff, now);
    }
  }

  lemma {:induction false} SumGrows(log: seq<Record>, record: Record, groups: seq<Id>, cutoff: int)
    requires forall i, j :: 0 <= i < j < |groups| ==> groups[i] != groups[j]
    ensures Sum(log + [record], groups, cutoff) == Sum(log, groups, cutoff)
      + if record.at < cutoff && record.organization in groups then 1 else 0
    decreases |groups|
  {
    Grown(log, record);
    if groups != [] {
      SumGrows(log, record, groups[..|groups| - 1], cutoff);
      var last := groups[|groups| - 1];
      assert forall organization :: organization in groups <==>
        organization in groups[..|groups| - 1] || organization == last;
    }
  }

  lemma {:induction false} SumNone(groups: seq<Id>, cutoff: int)
    ensures Sum([], groups, cutoff) == 0
    decreases |groups|
  {
    if groups != [] {
      SumNone(groups[..|groups| - 1], cutoff);
    }
  }

  /** The counts of the groups add up to the rows that leave. */
  lemma {:induction false} SumIsLoss(log: seq<Record>, groups: seq<Id>, cutoff: int)
    requires forall i, j :: 0 <= i < j < |groups| ==> groups[i] != groups[j]
    requires forall record :: record in log && record.at < cutoff ==> record.organization in groups
    ensures Sum(log, groups, cutoff) == |log| - |Kept(log, cutoff)|
    decreases |log|
  {
    if log == [] {
      SumNone(groups, cutoff);
    } else {
      var front, last := log[..|log| - 1], log[|log| - 1];
      assert log == front + [last];
      SumIsLoss(front, groups, cutoff);
      SumGrows(front, last, groups, cutoff);
    }
  }

  lemma {:induction false} ExpiredHas(log: seq<Record>, record: Record, cutoff: int)
    requires record in log && record.at < cutoff
    ensures Expired(log, record.organization, cutoff) > 0
    decreases |log|
  {
    if log[|log| - 1] != record {
      ExpiredHas(log[..|log| - 1], record, cutoff);
    }
  }

  /** A prune removes of each organization as many rows as the one notice it
      leaves there says, leaves no notice elsewhere, and answers the sum of
      them all. */
  lemma PruneRecords(s: State, groups: seq<Id>, cutoff: int, now: int)
    requires Groups(s.log, cutoff, groups)
    ensures forall record :: record in Kept(s.log, cutoff) <==> record in s.log && record.at >= cutoff
    ensures |s.log| == |Kept(s.log, cutoff)| + Sum(s.log, groups, cutoff)
    ensures forall organization ::
      RowsOf(s.log, organization)
      == RowsOf(Kept(s.log, cutoff), organization) + Expired(s.log, organization, cutoff)
    ensures var notices := Notices(s.log, groups, cutoff, now);
      |notices| == |groups| && forall i :: 0 <= i < |groups| ==>
        notices[i] == Record(groups[i], None, LogPruned(Expired(s.log, groups[i], cutoff), cutoff), now)
  {
    forall organization
      ensures RowsOf(s.log, organization)
        == RowsOf(Kept(s.log, cutoff), organization) + Expired(s.log, organization, cutoff)
    {
      PruneCounts(s.log, organization, cutoff);
    }
    forall record | record in s.log && record.at < cutoff ensures record.organization in groups {
      ExpiredHas(s.log, record, cutoff);
    }
    SumIsLoss(s.log, groups, cutoff);
    NoticeOfEach(s.log, groups, cutoff, now);
    KeptFrom(s.log, cutoff);
  }

  // ---------------------------------------------------------------------
  // What a pruned log still tells
  // ---------------------------------------------------------------------

  /** An event that says what became of a user. */
  predicate OfUser(event: Event) {
    event.UserCreated? || event.RoleChanged? || event.AdminGranted? || event.AdminRevoked?
  }

  function UserOf(event: Event): Id
    requires OfUser(event)
  {
    match event
    case UserCreated(user, _) => user
    case RoleChanged(user, _, _) => user
    case AdminGranted(user) => user
    case AdminRevoked(user) => user
  }

  predicate Creates(record: Record, organization: Id, user: Id) {
    record.organization == organization && record.event.UserCreated? && record.event.user == user
  }

  predicate Sorted(log: seq<Record>) {
    forall i, j :: 0 <= i < j < |log| ==> log[i].at <= log[j].at
  }

  /** A replay knows exactly the users created in its log. */
  lemma {:induction false} KnowsCreated(log: seq<Record>, organization: Id, user: Id)
    ensures user in Replay(log, organization) <==> exists i :: 0 <= i < |log| && Creates(log[i], organization, user)
    decreases |log|
  {
    if log != [] {
      KnowsCreated(log[..|log| - 1], organization, user);
      assert forall i :: 0 <= i < |log| - 1 ==> log[..|log| - 1][i] == log[i];
    }
  }

  /** A truthful log creates a user once, ahead of all it says of it. */
  lemma {:induction false} CreatedAhead(log: seq<Record>, i: nat) returns (created: nat)
    requires Truthful(log) && i < |log| && OfUser(log[i].event)
    ensures created <= i && Creates(log[created], log[i].organization, UserOf(log[i].event))
    ensures forall k :: 0 <= k < |log| && Creates(log[k], log[i].organization, UserOf(log[i].event)) ==> k == created
    decreases |log|
  {
    var front, last := log[..|log| - 1], log[|log| - 1];
    var organization, user := log[i].organization, UserOf(log[i].event);
    assert forall k :: 0 <= k < |front| ==> front[k] == log[k];
    KnowsCreated(front, organization, user);
    if i < |front| {
      created := CreatedAhead(front, i);
    } else if last.event.UserCreated? {
      created := i;
    } else {
      var k :| 0 <= k < |front| && Creates(front[k], organization, user);
      created := CreatedAhead(front, k);
    }
  }

  lemma {:induction false} KeptFrom(log: seq<Record>, cutoff: int)
    ensures forall record :: record in Kept(log, cutoff) <==> record in log && record.at >= cutoff
    decreases |log|
  {
    if log != [] {
      var front := log[..|log| - 1];
      KeptFrom(front, cutoff);
      assert log == front + [log[|log| - 1]];
      assert forall record :: record in log <==> record in front || record == log[|log| - 1];
    }
  }

  lemma {:induction false} NoticesAdd(log: seq<Record>, notices: seq<Record>, organization: Id)
    requires forall i :: 0 <= i < |notices| ==> notices[i].event.LogPruned?
    ensures Replay(log + notices, organization) == Replay(log, organization)
    decreases |notices|
  {
    hide Replay;
    if notices == [] {
      Sequences.Empty(log);
    } else {
      var front, last := notices[..|notices| - 1], notices[|notices| - 1];
      NoticesAdd(log, front, organization);
      assert notices == front + [last];
      Sequences.Assoc(log, front, [last]);
      ReplayNotice(log + front, last, organization);
    }
  }

  lemma ReplayNotice(log: seq<Record>, record: Record, organization: Id)
    requires record.event.LogPruned?
    ensures Replay(log + [record], organization) == Replay(log, organization)
  {
    Grown(log, record);
  }

  lemma {:induction false} KeptTells(log: seq<Record>, cutoff: int, organization: Id)
    requires forall i :: 0 <= i < |log| && log[i].at < cutoff ==> !OfUser(log[i].event)
    ensures Replay(Kept(log, cutoff), organization) == Replay(log, organization)
    decreases |log|
  {
    if log != [] {
      var front, last := log[..|log| - 1], log[|log| - 1];
      assert forall i :: 0 <= i < |front| ==> front[i] == log[i];
      KeptTells(front, cutoff, organization);
      if last.at < cutoff {
        Sequences.Empty(Kept(front, cutoff));
      } else {
        Grown(Kept(front, cutoff), last);
      }
    }
  }

  /** With a clock that never went back, a pruned log still rebuilds every
      organization's users exactly when no row it lost said anything of a user. */
  lemma PruneRebuildsExactly(s: State, groups: seq<Id>, cutoff: int, now: int)
    requires Rebuilds(s) && Sorted(s.log) && Groups(s.log, cutoff, groups)
    ensures (forall organization ::
        Replay(Pruned(s, groups, cutoff, now).log, organization) == StandingsOf(s.users, organization))
      <==> forall i :: 0 <= i < |s.log| && s.log[i].at < cutoff ==> !OfUser(s.log[i].event)
  {
    var kept, notices := Kept(s.log, cutoff), Notices(s.log, groups, cutoff, now);
    NoticeOfEach(s.log, groups, cutoff, now);
    if i :| 0 <= i < |s.log| && s.log[i].at < cutoff && OfUser(s.log[i].event) {
      var organization, user := s.log[i].organization, UserOf(s.log[i].event);
      var created := CreatedAhead(s.log, i);
      KnowsCreated(s.log, organization, user);
      KnowsCreated(kept, organization, user);
      KeptFrom(s.log, cutoff);
      assert forall k :: 0 <= k < |kept| ==> kept[k] in s.log;
      NoticesAdd(kept, notices, organization);
      assert user in StandingsOf(s.users, organization) by {
        assert Replay(s.log, organization) == StandingsOf(s.users, organization);
      }
    } else {
      forall organization
        ensures Replay(kept + notices, organization) == StandingsOf(s.users, organization)
      {
        NoticesAdd(kept, notices, organization);
        KeptTells(s.log, cutoff, organization);
      }
    }
  }

  // ---------------------------------------------------------------------
  // Every run
  // ---------------------------------------------------------------------

  datatype Turn = Operate(op: Operation, now: int) | Prune(groups: seq<Id>, cutoff: int, now: int)

  ghost predicate Takes(s: State, turn: Turn) {
    match turn
    case Operate(op, _) => Enabled(s, op)
    case Prune(groups, cutoff, _) => Groups(s.log, cutoff, groups)
  }

  ghost function Outcome(s: State, turn: Turn): State {
    match turn
    case Operate(op, now) => Step(s, op, now)
    case Prune(groups, cutoff, now) => Pruned(s, groups, cutoff, now)
  }

  ghost predicate Runs(s: State, turns: seq<Turn>)
    decreases |turns|
  {
    turns == [] || (Takes(s, turns[0]) && Runs(Outcome(s, turns[0]), turns[1..]))
  }

  ghost function After(s: State, turns: seq<Turn>): State
    requires Runs(s, turns)
    decreases |turns|
  {
    if turns == [] then s else After(Outcome(s, turns[0]), turns[1..])
  }

  predicate Unpruned(turns: seq<Turn>)
    decreases |turns|
  {
    turns == [] || (turns[0].Operate? && Unpruned(turns[1..]))
  }

  lemma {:induction false} EveryRunFrom(s: State, turns: seq<Turn>)
    requires Inv(s) && Runs(s, turns)
    ensures Inv(After(s, turns))
    ensures Rebuilds(s) && Unpruned(turns) ==> Rebuilds(After(s, turns))
    decreases |turns|
  {
    hide Inv, Rebuilds, Step, Enabled;
    if turns != [] {
      match turns[0] {
        case Operate(op, now) =>
          StepKeeps(s, op, now);
          if Rebuilds(s) {
            StepRebuilds(s, op, now);
          }
        case Prune(groups, cutoff, now) => PruneKeeps(s, groups, cutoff, now);
      }
      EveryRunFrom(Outcome(s, turns[0]), turns[1..]);
    }
  }

  lemma PruneKeeps(s: State, groups: seq<Id>, cutoff: int, now: int)
    requires Inv(s)
    ensures Inv(Pruned(s, groups, cutoff, now))
  {
    var t := Pruned(s, groups, cutoff, now);
    assert t.users == s.users && t.organizations == s.organizations;
  }

  /** In every run each organization keeps an owner and each login names one
      user; and while nothing was pruned the log rebuilds every user's role
      and flag, each event starting from what stood. */
  lemma EveryRun(turns: seq<Turn>)
    requires Runs(EMPTY, turns)
    ensures Inv(After(EMPTY, turns))
    ensures Unpruned(turns) ==> Rebuilds(After(EMPTY, turns))
  {
    assert Rebuilds(EMPTY) by {
      assert forall organization :: StandingsOf(map[], organization) == map[];
    }
    EveryRunFrom(EMPTY, turns);
  }

  // ---------------------------------------------------------------------
  // The source's transactions
  // ---------------------------------------------------------------------

  class Store {
    var organizations: set<Id>
    var users: map<Id, User>
    var log: seq<Record>

    ghost function Now(): State
      reads this
    {
      State(organizations, users, log)
    }

    constructor ()
      ensures Now() == EMPTY && organizations == {} && users == map[] && log == []
    {
      organizations, users, log := {}, map[], [];
    }

    method LoginOf(login: string) returns (id: Option<Id>)
      requires LoginsUnique(Now())
      ensures id.Some? <==> Taken(users, login)
      ensures id.Some? ==> id.value == ByLogin(users, login)
    {
      id := None;
      var left := users.Keys;
      while left != {}
        invariant left <= users.Keys
        invariant id.None? ==> forall k :: k in users && k !in left ==> users[k].login != login
        invariant id.Some? ==> id.value in users && users[id.value].login == login
        decreases |left|
      {
        var k :| k in left;
        if users[k].login == login {
          id := Some(k);
        }
        left := left - {k};
      }
    }

    method EnsureAnotherOwner(organization: Id, excluded: Id) returns (ok: bool)
      ensures ok <==> AnotherOwner(users, organization, excluded)
    {
      var others := 0;
      var left := users.Keys;
      while left != {}
        invariant left <= users.Keys && others >= 0
        invariant others == 0 <==> forall k :: k in users && k !in left ==>
          !(k != excluded && users[k].organization == organization && users[k].role == Owner)
        decreases |left|
      {
        var k :| k in left;
        if k != excluded && users[k].organization == organization && users[k].role == Owner {
          others := others + 1;
        }
        left := left - {k};
      }
      ok := others != 0;
    }

    method Append(organization: Id, actor: Option<Id>, event: Event, now: int)
      modifies this`log
      ensures Now() == Appended(old(Now()), organization, actor, event, now)
    {
      log := log + [Record(organization, actor, event, now)];
    }

    method InsertUser(organization: Id, id: Id, login: string, role: Role) returns (ok: bool)
      requires LoginsUnique(Now())
      modifies this`users
      ensures ok <==> !Taken(old(users), login)
      ensures users == if ok then old(users)[id := User(organization, login, role, false)] else old(users)
    {
      var taken := LoginOf(login);
      ok := taken.None?;
      if ok {
        users := users[id := User(organization, login, role, false)];
      }
    }

    /** A user that owns a new organization; a taken login takes the
        organization back as well. */
    method CreatePersonalUser(organization: Id, id: Id, login: string, now: int) returns (answer: Answer)
      requires Inv(Now()) && Enabled(Now(), CreatePersonal(organization, id, login))
      modifies this
      ensures Inv(Now()) && answer == AnswerOf(old(Now()), CreatePersonal(organization, id, login))
      ensures Now() == Step(old(Now()), CreatePersonal(organization, id, login), now)
    {
      StepKeeps(Now(), CreatePersonal(organization, id, login), now);
      var before := organizations;
      organizations := organizations + {organization};
      var ok := InsertUser(organization, id, login, Owner);
      if !ok {
        organizations := before;
        return Failed(LoginTaken);
      }
      Append(organization, None, OrganizationCreated, now);
      Append(organization, None, UserCreated(id, Owner), now);
      answer := Done;
    }

    method InsertOrganizationUser(scope: Scope, id: Id, login: string, role: Role, now: int) returns (answer: Answer)
      requires Inv(Now()) && Enabled(Now(), CreateUser(scope, id, login, role))
      modifies this
      ensures Inv(Now()) && answer == AnswerOf(old(Now()), CreateUser(scope, id, login, role))
      ensures Now() == Step(old(Now()), CreateUser(scope, id, login, role), now)
    {
      StepKeeps(Now(), CreateUser(scope, id, login, role), now);
      if !MayGrant(scope, role) {
        return Failed(Forbidden);
      }
      var ok := InsertUser(scope.organization, id, login, role);
      if !ok {
        return Failed(LoginTaken);
      }
      Append(scope.organization, Some(scope.user), UserCreated(id, role), now);
      answer := Done;
    }

    method SetRole(scope: Scope, target: Id, to: Role, now: int) returns (answer: Answer)
      requires Inv(Now())
      modifies this
      ensures Inv(Now()) && answer == AnswerOf(old(Now()), ChangeRole(scope, target, to))
      ensures Now() == Step(old(Now()), ChangeRole(scope, target, to), now)
    {
      StepKeeps(Now(), ChangeRole(scope, target, to), now);
      if !MayGrant(scope, to) {
        return Failed(Forbidden);
      }
      if !InScope(users, scope, target) {
        return Failed(NotFound);
      }
      var current := users[target];
      if current.role.Rank() > scope.role.Rank() {
        return Failed(Forbidden);
      }
      if current.role == to {
        return Unchanged;
      }
      if current.role == Owner {
        var another := EnsureAnotherOwner(scope.organization, target);
        if !another {
          return Failed(LastOwner);
        }
      }
      users := users[target := current.(role := to)];
      Append(scope.organization, Some(scope.user), RoleChanged(target, current.role, to), now);
      answer := Done;
    }

    method SetInstanceAdmin(login: string, granted: bool, now: int) returns (answer: Answer)
      requires Inv(Now())
      modifies this
      ensures Inv(Now()) && answer == AnswerOf(old(Now()), SetAdmin(login, granted))
      ensures Now() == Step(old(Now()), SetAdmin(login, granted), now)
    {
      StepKeeps(Now(), SetAdmin(login, granted), now);
      var found := LoginOf(login);
      if found.None? {
        return Failed(NotFound);
      }
      var id := found.value;
      if users[id].admin == granted {
        return Unchanged;
      }
      users := users[id := users[id].(admin := granted)];
      Append(users[id].organization, None, if granted then AdminGranted(id) else AdminRevoked(id), now);
      answer := Done;
    }

    /** The rows each organization is about to lose. */
    method RemovedPerOrganization(cutoff: int) returns (counts: map<Id, nat>)
      ensures forall organization :: organization in counts <==> Expired(log, organization, cutoff) > 0
      ensures forall organization :: organization in counts ==>
        counts[organization] == Expired(log, organization, cutoff)
    {
      counts := map[];
      Sequences.Ends(log);
      hide Expired;
      ExpiredNone(cutoff);
      for i := 0 to |log|
        invariant forall organization :: organization in counts <==> Expired(log[..i], organization, cutoff) > 0
        invariant forall organization :: organization in counts ==>
          counts[organization] == Expired(log[..i], organization, cutoff)
      {
        var record := log[i];
        Sequences.Grow(log, i);
        ExpiredGrows(log[..i], record, cutoff);
        if record.at < cutoff {
          var count := if record.organization in counts then counts[record.organization] else 0;
          counts := counts[record.organization := count + 1];
        }
      }
    }

    method DeleteExpired(cutoff: int)
      modifies this`log
      ensures log == Kept(old(log), cutoff)
    {
      var rows, kept := log, [];
      Sequences.Ends(rows);
      for i := 0 to |rows|
        invariant kept == Kept(rows[..i], cutoff)
      {
        Sequences.Grow(rows, i);
        KeptGrows(rows[..i], rows[i], cutoff);
        if rows[i].at >= cutoff {
          kept := kept + [rows[i]];
        }
      }
      log := kept;
    }

    /** Appends the notice of each organization that lost rows, in any order. */
    method AppendNotices(counts: map<Id, nat>, cutoff: int, now: int, ghost was: seq<Record>)
      returns (total: nat, ghost groups: seq<Id>)
      requires forall organization :: organization in counts <==> Expired(was, organization, cutoff) > 0
      requires forall organization :: organization in counts ==>
        counts[organization] == Expired(was, organization, cutoff)
      modifies this`log
      ensures Groups(was, cutoff, groups)
      ensures log == old(log) + Notices(was, groups, cutoff, now) && total == Sum(was, groups, cutoff)
    {
      total, groups := 0, [];
      var left := counts.Keys;
      Sequences.Empty(log);
      NoNotices(was, cutoff, now);
      ghost var begun := log;
      hide Notices, Sum, Expired, Kept;
      while left != {}
        invariant left <= counts.Keys
        invariant forall organization :: organization in groups <==> organization in counts && organization !in left
        invariant forall i, j :: 0 <= i < j < |groups| ==> groups[i] != groups[j]
        invariant log == begun + Notices(was, groups, cutoff, now)
        invariant total == Sum(was, groups, cutoff)
        decreases |left|
      {
        var organization :| organization in left;
        NoticesGrow(was, groups, organization, cutoff, now);
        ghost var notice := Record(organization, None, LogPruned(counts[organization], cutoff), now);
        Sequences.Assoc(begun, Notices(was, groups, cutoff, now), [notice]);
        total := total + counts[organization];
        Append(organization, None, LogPruned(counts[organization], cutoff), now);
        groups := groups + [organization];
        left := left - {organization};
      }
    }

    /** Removes what is past the retention and records it per organization. */
    method PruneLog(retentionDays: nat, now: int) returns (total: nat, ghost groups: seq<Id>)
      requires Inv(Now())
      modifies this`log
      ensures Inv(Now())
      ensures var cutoff := now - retentionDays * 86_400_000;
        && Groups(old(log), cutoff, groups)
        && Now() == Pruned(old(Now()), groups, cutoff, now)
        && total == Sum(old(log), groups, cutoff)
    {
      var cutoff := now - retentionDays * MS_PER_DAY;
      ghost var was := log;
      var counts := RemovedPerOrganization(cutoff);
      DeleteExpired(cutoff);
      total, groups := AppendNotices(counts, cutoff, now, was);
      PruneKeeps(old(Now()), groups, cutoff, now);
    }
  }

  lemma ExpiredNone(cutoff: int)
    ensures forall organization :: Expired([], organization, cutoff) == 0
  {
  }

  lemma ExpiredGrows(log: seq<Record>, record: Record, cutoff: int)
    ensures forall organization ::
      Expired(log + [record], organization, cutoff) == Expired(log, organization, cutoff)
        + if record.organization == organization && record.at < cutoff then 1 else 0
  {
    Grown(log, record);
  }

  lemma KeptGrows(log: seq<Record>, record: Record, cutoff: int)
    ensures Kept(log + [record], cutoff) ==
      if record.at < cutoff then Kept(log, cutoff) else Kept(log, cutoff) + [record]
  {
    Grown(log, record);
    Sequences.Empty(Kept(log, cutoff));
  }

  lemma NoNotices(log: seq<Record>, cutoff: int, now: int)
    ensures Notices(log, [], cutoff, now) == [] && Sum(log, [], cutoff) == 0
  {
  }

  lemma NoticesGrow(log: seq<Record>, groups: seq<Id>, organization: Id, cutoff: int, now: int)
    ensures Notices(log, groups + [organization], cutoff, now) == Notices(log, groups, cutoff, now)
      + [Record(organization, None, LogPruned(Expired(log, organization, cutoff), cutoff), now)]
    ensures Sum(log, groups + [organization], cutoff) == Sum(log, groups, cutoff) + Expired(log, organization, cutoff)
  {
    assert (groups + [organization])[..|groups|] == groups;
  }
}
