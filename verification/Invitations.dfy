/** Invitations and team membership: the service, its three repositories, and whole runs of calls. */
module Invitations {
  import opened Common
  import opened Roles

  datatype Status = Pending | Accepted | Rejected

  function StatusToString(status: Status): string {
    match status
    case Accepted => "accepted"
    case Rejected => "rejected"
    case Pending => "pending"
  }

  function StatusFromString(s: string): Status {
    if s == "accepted" then Accepted else if s == "rejected" then Rejected else Pending
  }

  // A row of the invitations table.
  datatype Row = Row(fromUser: UUID, toUser: UUID, teamId: Option<UUID>, projectId: Option<UUID>, role: string,
      status: string, createdAt: int)

  datatype Invitation = Invitation(id: UUID, fromUser: UUID, toUser: UUID, teamId: Option<UUID>,
      projectId: Option<UUID>, role: UserRole, status: Status)

  datatype Notice = Notice(user: UUID, kind: string)

  const RECEIVED: string := "invitation"
  const WELCOMED: string := "invitation_accepted"

  // Tables users, teams, projects (with their team), invitations, team_members, and the notices handed out.
  datatype State = State(
    users: set<UUID>,
    teams: set<UUID>,
    projects: map<UUID, UUID>,
    invitations: map<UUID, Row>,
    members: map<(UUID, UUID), string>,
    notices: seq<Notice>)

  // Which collaborators the service was built with.
  datatype Wiring = Wiring(teamRepository: bool, projectRepository: bool, notifier: bool)

  // Which of a call's database accesses go through: the first reads, the write of the invitation, the write of the
  // membership.
  datatype Luck = Luck(finds: bool, writes: bool, joins: bool)

  // ---- repositories ----

  function MapInvitation(id: UUID, row: Row): Invitation {
    Invitation(id, row.fromUser, row.toUser, row.teamId, row.projectId, RoleFromString(row.role),
        StatusFromString(row.status))
  }

  predicate PendingFor(s: State, id: UUID, user: UUID) {
    id in s.invitations && s.invitations[id].toUser == user && s.invitations[id].status == "pending"
  }

  predicate References(s: State, row: Row) {
    && row.fromUser in s.users && row.toUser in s.users
    && (row.teamId.Some? ==> row.teamId.value in s.teams)
    && (row.projectId.Some? ==> row.projectId.value in s.projects)
  }

  // The insert is refused for an empty or taken id, a dangling reference, or a role the column does not admit.
  function Created(s: State, id: UUID, row: Row): (State, UUID) {
    if id == "" || id in s.invitations || !References(s, row) || !StorableRole(row.role) then (s, "")
    else (s.(invitations := s.invitations[id := row]), id)
  }

  function Moved(s: State, id: UUID, status: Status): (State, bool) {
    if id !in s.invitations then (s, false)
    else (s.(invitations := s.invitations[id := s.invitations[id].(status := StatusToString(status))]), true)
  }

  // The upsert into team_members.
  function Joined(s: State, team: UUID, user: UUID, role: UserRole): (State, bool) {
    if team !in s.teams || user !in s.users || !StorableRole(RoleToString(role)) then (s, false)
    else (s.(members := s.members[(team, user) := RoleToString(role)]), true)
  }

  // INSERT .. SELECT team_id FROM projects: no row for an unknown project.
  function JoinedProject(s: State, project: UUID, user: UUID, role: UserRole): (State, bool) {
    if project !in s.projects then (s, false) else Joined(s, s.projects[project], user, role)
  }

  function FindRole(s: State, project: UUID, user: UUID): Option<UserRole> {
    if project in s.projects && (s.projects[project], user) in s.members then
      Some(RoleFromString(s.members[(s.projects[project], user)]))
    else None
  }

  // ---- calls ----

  datatype Call =
    | Send(fromUser: UUID, toUser: UUID, project: UUID, role: UserRole, generated: UUID)
    | Accept(id: UUID, user: UUID)
    | Reject(id: UUID, user: UUID)

  function Sent(s: State, c: Call, now: int, wiring: Wiring, luck: Luck): (State, UUID)
    requires c.Send?
  {
    if !luck.finds || c.fromUser !in s.users || c.toUser !in s.users || !luck.writes then (s, "")
    else
      var (s1, id) := Created(s, c.generated,
          Row(c.fromUser, c.toUser, None, Some(c.project), RoleToString(c.role), "pending", now));
      if id != "" && wiring.notifier then (s1.(notices := s1.notices + [Notice(c.toUser, RECEIVED)]), id) else (s1, id)
  }

  // The team an accepted invitation leads to, if the service can write the membership.
  function Destination(s: State, id: UUID, wiring: Wiring): Option<UUID>
    requires id in s.invitations
  {
    var row := s.invitations[id];
    if row.teamId.Some? && wiring.teamRepository then
      if row.teamId.value in s.teams then row.teamId else None
    else if row.projectId.Some? && wiring.projectRepository then
      var project := row.projectId.value;
      if project in s.projects && s.projects[project] in s.teams then Some(s.projects[project]) else None
    else None
  }

  function Membership(s: State, row: Row, user: UUID, wiring: Wiring): (State, bool) {
    var role := RoleFromString(row.role);
    if row.teamId.Some? && wiring.teamRepository then Joined(s, row.teamId.value, user, role)
    else if row.projectId.Some? && wiring.projectRepository then JoinedProject(s, row.projectId.value, user, role)
    else (s, false)
  }

  function AcceptedBy(s: State, id: UUID, user: UUID, wiring: Wiring, luck: Luck): (State, bool) {
    if !luck.finds || !PendingFor(s, id, user) || !luck.writes then (s, false)
    else
      var row := s.invitations[id];
      var s1 := Moved(s, id, Accepted).0;
      var (s2, persisted) := if luck.joins then Membership(s1, row, user, wiring) else (s1, false);
      if !persisted then (s1, false)
      else if wiring.notifier then (s2.(notices := s2.notices + [Notice(row.fromUser, WELCOMED)]), true)
      else (s2, true)
  }

  function RejectedBy(s: State, id: UUID, user: UUID, luck: Luck): (State, bool) {
    if !luck.finds || !PendingFor(s, id, user) || !luck.writes then (s, false) else Moved(s, id, Rejected)
  }

  // A call in its circumstances.
  datatype Step = Step(call: Call, now: int, luck: Luck)

  function After(s: State, t: Step, wiring: Wiring): State {
    match t.call
    case Send(_, _, _, _, _) => Sent(s, t.call, t.now, wiring, t.luck).0
    case Accept(id, user) => AcceptedBy(s, id, user, wiring, t.luck).0
    case Reject(id, user) => RejectedBy(s, id, user, t.luck).0
  }

  // The caller was told that it worked.
  predicate Succeeds(s: State, t: Step, wiring: Wiring) {
    match t.call
    case Send(_, _, _, _, _) => Sent(s, t.call, t.now, wiring, t.luck).1 != ""
    case Accept(id, user) => AcceptedBy(s, id, user, wiring, t.luck).1
    case Reject(id, user) => RejectedBy(s, id, user, t.luck).1
  }

  function Run(s: State, ts: seq<Step>, wiring: Wiring): State
    decreases |ts|
  {
    if ts == [] then s else Run(After(s, ts[0], wiring), ts[1..], wiring)
  }

  // The column constraints and references of the migrations.
  ghost predicate Valid(s: State) {
    && (forall id :: id in s.invitations ==> RowValid(s, s.invitations[id]))
    && (forall p :: p in s.projects ==> s.projects[p] in s.teams)
    && (forall m :: m in s.members ==> StorableRole(s.members[m]))
  }

  predicate RowValid(s: State, row: Row) {
    References(s, row) && StorableRole(row.role) && StatusToString(StatusFromString(row.status)) == row.status
  }

  lemma StatusRoundTrip(status: Status)
    ensures StatusFromString(StatusToString(status)) == status
    ensures StatusToString(status) == "pending" <==> status.Pending?
  {
    assert "pending"[0] != "accepted"[0] && "rejected"[0] != "accepted"[0] && "pending"[0] != "rejected"[0];
  }

  // ---- one step ----

  /** An accept succeeds exactly when the invitation is pending for the caller, the accesses go through and the
      invitation leads to a team; it then makes the caller a member of that team in the invitation's role, replacing any
      role the caller had there. */
  lemma AcceptSucceedsIff(s: State, id: UUID, user: UUID, wiring: Wiring, luck: Luck)
    requires Valid(s)
    ensures var (s', ok) := AcceptedBy(s, id, user, wiring, luck);
            && (ok <==> PendingFor(s, id, user) && luck == Luck(true, true, true) && Destination(s, id, wiring).Some?)
            && (ok ==>
                  var role := RoleToString(RoleFromString(s.invitations[id].role));
                  s'.members == s.members[(Destination(s, id, wiring).value, user) := role])
            && (!ok ==> s'.members == s.members)
  {
    if id in s.invitations {
      assert RowValid(s, s.invitations[id]);
      RoleRoundTrip(RoleFromString(s.invitations[id].role));
      StoredRoleCapabilities(s.invitations[id].role);
      hide RoleFromString, RoleToString, StorableRole, RowValid;
    }
  }

  /** A burnt invitation: the accept says no, and yet the invitation is accepted and can never be answered again. That
      happens exactly when the answer was written and the membership was not. */
  lemma AcceptBurnsIff(s: State, id: UUID, user: UUID, wiring: Wiring, luck: Luck)
    requires Valid(s)
    ensures var (s', ok) := AcceptedBy(s, id, user, wiring, luck);
            (!ok && s' != s) <==>
              PendingFor(s, id, user) && luck.finds && luck.writes && (luck.joins ==> Destination(s, id, wiring).None?)
  {
    StatusRoundTrip(Accepted);
    hide StatusToString;
    AcceptSucceedsIff(s, id, user, wiring, luck);
    if PendingFor(s, id, user) {
      var s1 := Moved(s, id, Accepted).0;
      assert s1.invitations[id].status != s.invitations[id].status;
    }
  }

  // Who may answer: the addressee, while the invitation is pending.
  predicate Answers(t: Step, id: UUID, row: Row) {
    !t.call.Send? && t.call.id == id && t.call.user == row.toUser && row.status == "pending"
  }

  /** One step and one invitation: the invitation stays, only its status may differ, and it differs only if it was
      pending and the step is its addressee's answer. */
  lemma StepOnInvitation(s: State, t: Step, wiring: Wiring, id: UUID)
    requires id in s.invitations
    ensures var s' := After(s, t, wiring);
            && id in s'.invitations
            && s'.invitations[id] == s.invitations[id].(status := s'.invitations[id].status)
            && (s'.invitations[id] != s.invitations[id] ==>
                  Answers(t, id, s.invitations[id])
                      && s'.invitations[id].status == StatusToString(if t.call.Accept? then Accepted else Rejected))
  {
    hide StatusToString, RoleToString, RoleFromString, StorableRole, Valid;
    match t.call
    case Send(_, _, _, _, _) =>
    case Accept(x, user) => AcceptEffect(s, x, user, wiring, t.luck); hide AcceptedBy;
    case Reject(_, _) =>
  }

  // Only members and invitations may differ, by rows that are themselves valid.
  lemma ValidAfterRow(s: State, s': State, id: UUID)
    requires Valid(s) && s'.users == s.users && s'.teams == s.teams && s'.projects == s.projects
        && s'.members == s.members
    requires id in s'.invitations && s'.invitations == s.invitations[id := s'.invitations[id]]
        && RowValid(s, s'.invitations[id])
    ensures Valid(s')
  {
    hide StorableRole, StatusToString, StatusFromString;
    forall x | x in s'.invitations ensures RowValid(s', s'.invitations[x]) {
      assert x != id ==> RowValid(s, s.invitations[x]);
    }
  }

  lemma JoinedKeepsValid(s: State, team: UUID, user: UUID, role: UserRole)
    requires Valid(s)
    ensures Valid(Joined(s, team, user, role).0)
  {
    hide StorableRole, StatusToString, StatusFromString, RoleToString;
    var s' := Joined(s, team, user, role).0;
    forall id | id in s'.invitations ensures RowValid(s', s'.invitations[id]) {
      assert RowValid(s, s.invitations[id]);
    }
  }

  lemma ValidIgnoresNotices(s: State, notices: seq<Notice>)
    requires Valid(s)
    ensures Valid(s.(notices := notices))
  {
    var s' := s.(notices := notices);
    forall id | id in s'.invitations ensures RowValid(s', s'.invitations[id]) {
      assert RowValid(s, s.invitations[id]);
    }
  }

  lemma MovedKeepsValid(s: State, id: UUID, status: Status)
    requires Valid(s)
    ensures Valid(Moved(s, id, status).0)
  {
    StatusRoundTrip(status);
    hide StorableRole, StatusToString, StatusFromString;
    if id in s.invitations {
      assert RowValid(s, s.invitations[id]);
      var s' := Moved(s, id, status).0;
      assert RowValid(s, s'.invitations[id]);
      ValidAfterRow(s, s', id);
    }
  }

  lemma AcceptKeepsValid(s: State, id: UUID, user: UUID, wiring: Wiring, luck: Luck)
    requires Valid(s)
    ensures var s' := AcceptedBy(s, id, user, wiring, luck).0;
            Valid(s') && s'.users == s.users && s'.teams == s.teams && s'.projects == s.projects
  {
    hide Valid, StatusToString, StatusFromString, RoleToString, RoleFromString, StorableRole;
    if id in s.invitations {
      MovedKeepsValid(s, id, Accepted);
      var s1, row := Moved(s, id, Accepted).0, s.invitations[id];
      var role := RoleFromString(row.role);
      JoinedKeepsValid(s1, row.teamId.GetOr(""), user, role);
      if row.projectId.Some? && row.projectId.value in s.projects {
        JoinedKeepsValid(s1, s.projects[row.projectId.value], user, role);
      }
      ValidIgnoresNotices(Membership(s1, row, user, wiring).0, AcceptedBy(s, id, user, wiring, luck).0.notices);
    }
  }

  lemma StepKeepsValid(s: State, t: Step, wiring: Wiring)
    requires Valid(s)
    ensures Valid(After(s, t, wiring))
    ensures var s' := After(s, t, wiring); s'.users == s.users && s'.teams == s.teams && s'.projects == s.projects
  {
    var s' := After(s, t, wiring);
    match t.call
    case Send(fromUser, toUser, project, role, generated) =>
      StatusRoundTrip(Pending);
      hide Valid, StatusToString, StatusFromString, RoleToString, StorableRole;
      var row := Row(fromUser, toUser, None, Some(project), RoleToString(role), StatusToString(Pending), t.now);
      var s1 := Created(s, generated, row).0;
      if s1 != s {
        ValidAfterRow(s, s1, generated);
      }
      ValidIgnoresNotices(s1, s'.notices);
    case Accept(id, user) => AcceptKeepsValid(s, id, user, wiring, t.luck);
    case Reject(id, user) =>
      hide Valid, StatusToString;
      MovedKeepsValid(s, id, Rejected);
  }

  // ---- runs: invitations ----

  // Some step of the run is an answer to the invitation by its addressee.
  ghost predicate AnsweredBy(ts: seq<Step>, id: UUID, user: UUID) {
    exists t :: t in ts && !t.call.Send? && t.call.id == id && t.call.user == user
  }

  /** Over any run an invitation keeps all its fields but the status; once it is not pending it never changes; and if it
      leaves pending, some step is its addressee's answer. */
  lemma {:induction false} RunOnInvitation(s: State, ts: seq<Step>, wiring: Wiring, id: UUID)
    requires Valid(s) && id in s.invitations
    ensures var s' := Run(s, ts, wiring);
            && Valid(s') && id in s'.invitations
            && s'.invitations[id] == s.invitations[id].(status := s'.invitations[id].status)
            && (s.invitations[id].status != "pending" ==> s'.invitations[id] == s.invitations[id])
            && (s'.invitations[id] != s.invitations[id]
                ==> s'.invitations[id].status != "pending" && AnsweredBy(ts, id, s.invitations[id].toUser))
    decreases |ts|
  {
    hide After, Valid;
    if ts != [] {
      StepOnInvitation(s, ts[0], wiring, id);
      StepKeepsValid(s, ts[0], wiring);
      StatusRoundTrip(Accepted);
      StatusRoundTrip(Rejected);
      var s1 := After(s, ts[0], wiring);
      RunOnInvitation(s1, ts[1..], wiring, id);
      if s1.invitations[id] != s.invitations[id] {
        assert ts[0] in ts;
      } else if Run(s1, ts[1..], wiring).invitations[id] != s.invitations[id] {
        var t :| t in ts[1..] && !t.call.Send? && t.call.id == id && t.call.user == s1.invitations[id].toUser;
        assert t in ts;
      }
    }
  }

  /** A burnt invitation stays burnt: after an accept that wrote the answer but not the membership, no later accept or
      reject of it succeeds in any continuation. */
  lemma BurntForever(s: State, id: UUID, user: UUID, wiring: Wiring, luck: Luck, ts: seq<Step>, retry: Step)
    requires Valid(s) && !AcceptedBy(s, id, user, wiring, luck).1 && AcceptedBy(s, id, user, wiring, luck).0 != s
    requires !retry.call.Send? && retry.call.id == id
    ensures var later := Run(AcceptedBy(s, id, user, wiring, luck).0, ts, wiring);
            !Succeeds(later, retry, wiring) && After(later, retry, wiring) == later
  {
    AcceptBurnsIff(s, id, user, wiring, luck);
    StatusRoundTrip(Accepted);
    var s1 := AcceptedBy(s, id, user, wiring, luck).0;
    StepKeepsValid(s, Step(Accept(id, user), 0, luck), wiring);
    hide StatusToString, StatusFromString, Valid;
    assert s1.invitations[id].status != "pending";
    RunOnInvitation(s1, ts, wiring, id);
  }

  // ---- from sending to answering ----

  /** What a send does: it works exactly if the reads and the write go through, both users and the project are there,
      the generated id is new and not empty, and the role is one the column admits; it then stores one invitation,
      pending for its addressee and for nobody else, to the project's team in that role, and tells the addressee. */
  lemma SendStores(s: State, c: Call, now: int, wiring: Wiring, luck: Luck)
    requires c.Send?
    ensures var (s', id) := Sent(s, c, now, wiring, luck);
            && (id == "" ==> s' == s)
            && (id != "" <==>
                  && luck.finds && luck.writes && c.fromUser in s.users && c.toUser in s.users
                  && c.project in s.projects && c.generated != "" && c.generated !in s.invitations && c.role != Admin)
            && (id != "" ==>
                  && id == c.generated && id in s'.invitations && s'.invitations - {id} == s.invitations
                  && (forall user :: PendingFor(s', id, user) <==> user == c.toUser)
                  && var row := s'.invitations[id];
                  && row.fromUser == c.fromUser && row.toUser == c.toUser && row.status == "pending"
                  && row.teamId == None && row.projectId == Some(c.project) && RoleFromString(row.role) == c.role
                  && row.createdAt == now && s'.members == s.members
                  && s'.notices == s.notices + if wiring.notifier then [Notice(c.toUser, "invitation")] else [])
  {
    RoleRoundTrip(c.role);
    hide RoleToString, RoleFromString, StorableRole;
    var s' := Sent(s, c, now, wiring, luck).0;
    assert s.notices + [] == s.notices;
    if s' != s {
      assert (s.invitations[c.generated := s'.invitations[c.generated]]) - {c.generated} == s.invitations;
    }
  }

  /** Where an accept leads: to the invitation's team if it names one the service can write, else to the team of its
      project; the row is then "accepted" and the sender is told. */
  lemma AcceptWrites(s: State, id: UUID, user: UUID, wiring: Wiring, luck: Luck)
    requires Valid(s) && AcceptedBy(s, id, user, wiring, luck).1
    ensures id in s.invitations
    ensures var (s', row) := (AcceptedBy(s, id, user, wiring, luck).0, s.invitations[id]);
            && s'.invitations == s.invitations[id := row.(status := "accepted")]
            && s'.notices == s.notices + (if wiring.notifier then [Notice(row.fromUser, "invitation_accepted")] else [])
            && exists team ::
                 && (if row.teamId.Some? && wiring.teamRepository then team == row.teamId.value
                     else row.projectId.Some? && row.projectId.value in s.projects
                          && team == s.projects[row.projectId.value])
                 && (team, user) in s'.members
                 && s'.members == s.members[(team, user) := s'.members[(team, user)]]
                 && RoleFromString(s'.members[(team, user)]) == RoleFromString(row.role)
  {
    AcceptSucceedsIff(s, id, user, wiring, luck);
    AcceptEffect(s, id, user, wiring, luck);
    RoleRoundTrip(RoleFromString(s.invitations[id].role));
    hide AcceptedBy, RoleToString, RoleFromString, StorableRole, Valid;
    var team := Destination(s, id, wiring).value;
    assert s.notices + [] == s.notices;
    assert (team, user) in AcceptedBy(s, id, user, wiring, luck).0.members;
  }

  /** From send to membership: after a send, and any run in which its addressee does not answer, the invitation is
      refused to everyone else; the addressee's accept, if its accesses go through, makes the addressee a member of the
      project's team in the role that was offered, and the addressee's reject leaves every membership alone. */
  lemma SendThenAnswer(s: State, c: Call, now: int, wiring: Wiring, luck: Luck, ts: seq<Step>, luck': Luck)
    requires Valid(s) && c.Send? && Sent(s, c, now, wiring, luck).1 != "" && wiring.projectRepository
    requires !AnsweredBy(ts, c.generated, c.toUser)
    ensures var later := Run(Sent(s, c, now, wiring, luck).0, ts, wiring);
            && (forall user :: user != c.toUser ==>
                  && AcceptedBy(later, c.generated, user, wiring, luck') == (later, false)
                  && RejectedBy(later, c.generated, user, luck') == (later, false))
            && (luck' == Luck(true, true, true) ==>
                  && var (final, ok) := AcceptedBy(later, c.generated, c.toUser, wiring, luck');
                  && ok && FindRole(final, c.project, c.toUser) == Some(c.role)
                  && var (refused, done) := RejectedBy(later, c.generated, c.toUser, luck');
                  && done && refused.members == later.members && c.generated in refused.invitations
                  && refused.invitations[c.generated].status == "rejected")
  {
    SendStores(s, c, now, wiring, luck);
    StepKeepsValid(s, Step(c, now, luck), wiring);
    var s1 := Sent(s, c, now, wiring, luck).0;
    RunOnInvitation(s1, ts, wiring, c.generated);
    ProjectsStay(s1, ts, wiring);
    var later := Run(s1, ts, wiring);
    AcceptSucceedsIff(later, c.generated, c.toUser, wiring, luck');
    RoleRoundTrip(c.role);
    hide Sent, Run, RoleToString, RoleFromString, StorableRole, StatusFromString;
  }

  // ---- runs: membership ----

  // A membership write, with the invitation that caused it.
  datatype Join = Join(invitation: UUID, team: UUID, user: UUID, role: UserRole)

  function JoinOf(s: State, t: Step, wiring: Wiring): (j: Option<Join>)
    ensures j.Some? ==> t.call.Accept? && j.value.invitation == t.call.id && j.value.user == t.call.user
  {
    if t.call.Accept? && Succeeds(s, t, wiring) then
      var row := s.invitations[t.call.id];
      var direct := row.teamId.Some? && wiring.teamRepository;
      var team := if direct then row.teamId.value else s.projects[row.projectId.value];
      Some(Join(t.call.id, team, t.call.user, RoleFromString(row.role)))
    else None
  }

  function Joins(s: State, ts: seq<Step>, wiring: Wiring): seq<Join>
    decreases |ts|
  {
    if ts == [] then []
    else
      var j := JoinOf(s, ts[0], wiring);
      (if j.Some? then [j.value] else []) + Joins(After(s, ts[0], wiring), ts[1..], wiring)
  }

  // The role of the most recent join of the pair, or the initial one.
  function LastRole(initial: Option<string>, joins: seq<Join>, team: UUID, user: UUID): Option<string>
    decreases |joins|
  {
    if joins == [] then initial
    else
      var last := joins[|joins| - 1];
      if last.team == team && last.user == user then Some(RoleToString(last.role))
      else LastRole(initial, joins[..|joins| - 1], team, user)
  }

  function MemberRole(s: State, team: UUID, user: UUID): Option<string> {
    if (team, user) in s.members then Some(s.members[(team, user)]) else None
  }

  lemma StepOnMembers(s: State, t: Step, wiring: Wiring, team: UUID, user: UUID)
    requires Valid(s)
    ensures var j := JoinOf(s, t, wiring);
            && MemberRole(After(s, t, wiring), team, user)
               == (if j.Some? && j.value.team == team && j.value.user == user then Some(RoleToString(j.value.role))
                   else MemberRole(s, team, user))
            && (j.Some? ==> j.value.role != Admin)
  {
    match t.call
    case Accept(id, u) =>
      AcceptSucceedsIff(s, id, u, wiring, t.luck);
      if id in s.invitations {
        assert RowValid(s, s.invitations[id]);
        StoredRoleCapabilities(s.invitations[id].role);
      }
      hide RoleFromString, RoleToString, StorableRole, AcceptedBy, Valid;
    case _ =>
      hide RoleFromString, RoleToString, StorableRole, StatusToString;
  }

  lemma {:induction false} LastRoleConcat(initial: Option<string>, first: seq<Join>, rest: seq<Join>, team: UUID,
      user: UUID)
    ensures LastRole(initial, first + rest, team, user)
        == LastRole(LastRole(initial, first, team, user), rest, team, user)
    decreases |rest|
  {
    if rest == [] {
      assert first + rest == first;
    } else {
      assert (first + rest)[..|first + rest| - 1] == first + rest[..|rest| - 1];
      LastRoleConcat(initial, first, rest[..|rest| - 1], team, user);
    }
  }

  /** After any run every (team, user) pair holds the role of the most recent accept that succeeded for it, directly or
      through a project of the team, or else its initial role. */
  lemma {:induction false} MembersAreLastAccepts(s: State, ts: seq<Step>, wiring: Wiring, team: UUID, user: UUID)
    requires Valid(s)
    ensures MemberRole(Run(s, ts, wiring), team, user)
        == LastRole(MemberRole(s, team, user), Joins(s, ts, wiring), team, user)
    decreases |ts|
  {
    hide After, JoinOf, Valid, MemberRole, RoleToString;
    if ts != [] {
      StepKeepsValid(s, ts[0], wiring);
      StepOnMembers(s, ts[0], wiring, team, user);
      var s1 := After(s, ts[0], wiring);
      MembersAreLastAccepts(s1, ts[1..], wiring, team, user);
      var j := JoinOf(s, ts[0], wiring);
      var first := if j.Some? then [j.value] else [];
      LastRoleConcat(MemberRole(s, team, user), first, Joins(s1, ts[1..], wiring), team, user);
    }
  }

  // The most recent join of the pair.
  ghost predicate IsLastJoin(joins: seq<Join>, i: nat, team: UUID, user: UUID) {
    && i < |joins| && joins[i].team == team && joins[i].user == user
    && forall k :: i < k < |joins| ==> joins[k].team != team || joins[k].user != user
  }

  lemma {:induction false} LastRoleIs(initial: Option<string>, joins: seq<Join>, i: nat, team: UUID, user: UUID)
    requires IsLastJoin(joins, i, team, user)
    ensures LastRole(initial, joins, team, user) == Some(RoleToString(joins[i].role))
    decreases |joins|
  {
    if i < |joins| - 1 {
      LastRoleIs(initial, joins[..|joins| - 1], i, team, user);
    }
  }

  /** What RoleService reads back: after any run, on every project of the team, findRoleForUser returns the role of the
      last successful accept of the pair; and that is never Admin. */
  lemma AcceptedRoleIsRead(s: State, ts: seq<Step>, wiring: Wiring, i: nat, team: UUID, user: UUID, project: UUID)
    requires Valid(s) && IsLastJoin(Joins(s, ts, wiring), i, team, user)
    requires project in s.projects && s.projects[project] == team
    ensures FindRole(Run(s, ts, wiring), project, user) == Some(Joins(s, ts, wiring)[i].role)
    ensures Joins(s, ts, wiring)[i].role != Admin
  {
    var joins := Joins(s, ts, wiring);
    MembersAreLastAccepts(s, ts, wiring, team, user);
    LastRoleIs(MemberRole(s, team, user), joins, i, team, user);
    RoleRoundTrip(joins[i].role);
    ProjectsStay(s, ts, wiring);
    JoinsAreStorable(s, ts, wiring);
    hide RoleFromString, RoleToString, Joins, Run, Valid;
  }

  lemma {:induction false} ProjectsStay(s: State, ts: seq<Step>, wiring: Wiring)
    requires Valid(s)
    ensures Run(s, ts, wiring).projects == s.projects
    decreases |ts|
  {
    hide After, Valid;
    if ts != [] {
      StepKeepsValid(s, ts[0], wiring);
      ProjectsStay(After(s, ts[0], wiring), ts[1..], wiring);
    }
  }

  /** Nobody becomes an administrator, or an owner, by invitation: an accepted role is a storable one other than
      "owner", so accepting replaces even an owner's row by a lesser role. */
  lemma {:induction false} JoinsAreStorable(s: State, ts: seq<Step>, wiring: Wiring)
    requires Valid(s)
    ensures forall j :: j in Joins(s, ts, wiring) ==> j.role != Admin && RoleToString(j.role) != "owner"
    decreases |ts|
  {
    hide After, JoinOf, Valid;
    if ts != [] {
      StepKeepsValid(s, ts[0], wiring);
      StepOnMembers(s, ts[0], wiring, "", "");
      JoinsAreStorable(After(s, ts[0], wiring), ts[1..], wiring);
      assert "owner"[0] != "admin"[0] && "owner"[0] != "viewer"[0] && "owner"[0] != "backend_dev"[0]
          && "owner"[0] != "frontend_dev"[0];
    }
  }

  lemma {:induction false} NoJoinWithout(s: State, ts: seq<Step>, wiring: Wiring, id: UUID)
    requires Valid(s) && id in s.invitations && s.invitations[id].status != "pending"
    ensures forall j :: j in Joins(s, ts, wiring) ==> j.invitation != id
    decreases |ts|
  {
    if ts != [] {
      StepKeepsValid(s, ts[0], wiring);
      StepOnInvitation(s, ts[0], wiring, id);
      NoJoinWithout(After(s, ts[0], wiring), ts[1..], wiring, id);
      assert JoinOf(s, ts[0], wiring).Some? ==> JoinOf(s, ts[0], wiring).value.invitation != id;
      hide After, JoinOf, Valid;
    }
  }

  ghost predicate DistinctCauses(joins: seq<Join>) {
    forall i, k :: 0 <= i < k < |joins| ==> joins[i].invitation != joins[k].invitation
  }

  lemma ConsDistinct(j: Join, rest: seq<Join>)
    requires DistinctCauses(rest) && forall k :: k in rest ==> k.invitation != j.invitation
    ensures DistinctCauses([j] + rest)
  {
    assert forall k :: 0 <= k < |rest| ==> rest[k] in rest;
  }

  /** Over any run an invitation causes at most one membership write. */
  lemma {:induction false} OneJoinEach(s: State, ts: seq<Step>, wiring: Wiring)
    requires Valid(s)
    ensures DistinctCauses(Joins(s, ts, wiring))
    decreases |ts|
  {
    hide After, JoinOf, Valid;
    if ts != [] {
      StepKeepsValid(s, ts[0], wiring);
      var s1 := After(s, ts[0], wiring);
      OneJoinEach(s1, ts[1..], wiring);
      var j, rest := JoinOf(s, ts[0], wiring), Joins(s1, ts[1..], wiring);
      hide DistinctCauses;
      if j.Some? {
        JoinEndsPending(s, ts[0], wiring);
        NoJoinWithout(s1, ts[1..], wiring, ts[0].call.id);
        ConsDistinct(j.value, rest);
      } else {
        assert [] + rest == rest;
      }
    }
  }

  lemma JoinEndsPending(s: State, t: Step, wiring: Wiring)
    requires JoinOf(s, t, wiring).Some?
    ensures var s' := After(s, t, wiring); t.call.id in s'.invitations && s'.invitations[t.call.id].status != "pending"
  {
    StatusRoundTrip(Accepted);
    hide StatusToString, RoleToString, RoleFromString, StorableRole;
  }

  // ---- runs: the books ----

  function WithStatus(s: State, status: Status): set<UUID> {
    Having(s.invitations, StatusToString(status))
  }

  function Having(rows: map<UUID, Row>, status: string): set<UUID> {
    set id | id in rows && rows[id].status == status
  }

  function NoticesOf(notices: seq<Notice>, kind: string): nat {
    if notices == [] then 0
    else (if notices[|notices| - 1].kind == kind then 1 else 0) + NoticesOf(notices[..|notices| - 1], kind)
  }

  // What the run did, by the answers its callers got: sends and accepts and rejects that succeeded, accepts that burnt.
  datatype Tally = Tally(sent: nat, joined: nat, burnt: nat, rejected: nat)

  function Count(b: bool): nat { if b then 1 else 0 }

  function TallyOf(s: State, t: Step, wiring: Wiring): Tally {
    var ok := Succeeds(s, t, wiring);
    Tally(Count(t.call.Send? && ok), Count(t.call.Accept? && ok),
          Count(t.call.Accept? && !ok && After(s, t, wiring) != s), Count(t.call.Reject? && ok))
  }

  function Plus(a: Tally, b: Tally): Tally {
    Tally(a.sent + b.sent, a.joined + b.joined, a.burnt + b.burnt, a.rejected + b.rejected)
  }

  function Tallied(s: State, ts: seq<Step>, wiring: Wiring): Tally
    decreases |ts|
  {
    if ts == [] then Tally(0, 0, 0, 0)
    else Plus(TallyOf(s, ts[0], wiring), Tallied(After(s, ts[0], wiring), ts[1..], wiring))
  }

  // The balances of two states differ by the tally.
  ghost predicate Balanced(s: State, s': State, y: Tally, wiring: Wiring) {
    && |WithStatus(s', Pending)| == |WithStatus(s, Pending)| + y.sent - y.joined - y.burnt - y.rejected
    && |WithStatus(s', Accepted)| == |WithStatus(s, Accepted)| + y.joined + y.burnt
    && |WithStatus(s', Rejected)| == |WithStatus(s, Rejected)| + y.rejected
    && |s'.invitations| == |s.invitations| + y.sent
    && NoticesOf(s'.notices, WELCOMED) == NoticesOf(s.notices, WELCOMED) + (if wiring.notifier then y.joined else 0)
    && NoticesOf(s'.notices, RECEIVED) == NoticesOf(s.notices, RECEIVED) + (if wiring.notifier then y.sent else 0)
  }

  // One row written: it joins the set of its new status and leaves every other.
  lemma RowWritten(rows: map<UUID, Row>, id: UUID, row: Row, status: string)
    ensures Having(rows[id := row], status)
         == if row.status == status then Having(rows, status) + {id} else Having(rows, status) - {id}
    ensures id in Having(rows, status) <==> id in rows && rows[id].status == status
  {
    var after := rows[id := row];
    forall x ensures x in Having(after, status)
        <==> (if x == id then row.status == status else x in Having(rows, status)) {
      assert x in after <==> x == id || x in rows;
    }
  }

  lemma RowsCounted(rows: map<UUID, Row>, id: UUID, row: Row)
    ensures |rows[id := row]| == |rows| + if id in rows then 0 else 1
  {
    var after := rows[id := row];
    assert after.Keys == rows.Keys + {id};
    assert |after.Keys| == |after| && |rows.Keys| == |rows|;
  }

  lemma RowSet(s: State, s': State, id: UUID, row: Row, status: Status)
    requires s'.invitations == s.invitations[id := row]
    ensures WithStatus(s', status)
         == if row.status == StatusToString(status) then WithStatus(s, status) + {id} else WithStatus(s, status) - {id}
    ensures id in WithStatus(s, status) <==> id in s.invitations && s.invitations[id].status == StatusToString(status)
    ensures |s'.invitations| == |s.invitations| + if id in s.invitations then 0 else 1
  {
    RowWritten(s.invitations, id, row, StatusToString(status));
    RowsCounted(s.invitations, id, row);
    hide StatusToString, Having;
  }

  lemma AnswerMovesOne(s: State, s': State, id: UUID, to: Status)
    requires id in s.invitations && s.invitations[id].status == "pending" && to != Pending
    requires s'.invitations == s.invitations[id := s.invitations[id].(status := StatusToString(to))]
    ensures |WithStatus(s', Pending)| == |WithStatus(s, Pending)| - 1 && |WithStatus(s', to)| == |WithStatus(s, to)| + 1
    ensures var other := if to == Accepted then Rejected else Accepted;
            |WithStatus(s', other)| == |WithStatus(s, other)|
    ensures |s'.invitations| == |s.invitations|
  {
    StatusRoundTrip(Accepted);
    StatusRoundTrip(Rejected);
    StatusRoundTrip(Pending);
    hide StatusToString, StatusFromString, WithStatus;
    var row := s.invitations[id].(status := StatusToString(to));
    var other := if to == Accepted then Rejected else Accepted;
    assert StatusToString(other) != StatusToString(to);
    RowSet(s, s', id, row, Pending);
    RowSet(s, s', id, row, to);
    RowSet(s, s', id, row, other);
    assert WithStatus(s, other) - {id} == WithStatus(s, other);
  }

  lemma SendAddsOne(s: State, s': State, id: UUID, row: Row)
    requires id !in s.invitations && row.status == "pending" && s'.invitations == s.invitations[id := row]
    ensures |WithStatus(s', Pending)| == |WithStatus(s, Pending)| + 1 && |s'.invitations| == |s.invitations| + 1
    ensures |WithStatus(s', Accepted)| == |WithStatus(s, Accepted)|
        && |WithStatus(s', Rejected)| == |WithStatus(s, Rejected)|
  {
    StatusRoundTrip(Accepted);
    StatusRoundTrip(Rejected);
    StatusRoundTrip(Pending);
    hide StatusToString, StatusFromString, WithStatus;
    RowSet(s, s', id, row, Pending);
    RowSet(s, s', id, row, Accepted);
    RowSet(s, s', id, row, Rejected);
    assert WithStatus(s, Accepted) - {id} == WithStatus(s, Accepted);
    assert WithStatus(s, Rejected) - {id} == WithStatus(s, Rejected);
  }

  lemma NoticeAdded(notices: seq<Notice>, n: Notice, kind: string)
    ensures NoticesOf(notices + [n], kind) == NoticesOf(notices, kind) + Count(n.kind == kind)
  {
    assert (notices + [n])[..|notices|] == notices;
  }

  lemma StepBalances(s: State, t: Step, wiring: Wiring)
    requires Valid(s)
    ensures Balanced(s, After(s, t, wiring), TallyOf(s, t, wiring), wiring)
  {
    var s' := After(s, t, wiring);
    assert RECEIVED != WELCOMED;
    match t.call
    case Send(fromUser, toUser, project, role, generated) => SendBalances(s, t, wiring);
    case Accept(id, user) => AcceptBalances(s, t, wiring);
    case Reject(id, user) =>
      StatusRoundTrip(Rejected);
      if Succeeds(s, t, wiring) { AnswerMovesOne(s, s', id, Rejected); }
      hide StatusToString, WithStatus, NoticesOf, Valid;
  }

  lemma SendBalances(s: State, t: Step, wiring: Wiring)
    requires t.call.Send?
    ensures Balanced(s, After(s, t, wiring), TallyOf(s, t, wiring), wiring)
  {
    var (s', id) := Sent(s, t.call, t.now, wiring, t.luck);
    var n := Notice(t.call.toUser, RECEIVED);
    assert RECEIVED != WELCOMED;
    SendStores(s, t.call, t.now, wiring, t.luck);
    NoticeAdded(s.notices, n, RECEIVED);
    NoticeAdded(s.notices, n, WELCOMED);
    hide Sent, WithStatus, NoticesOf;
    if id == "" {
      BalancedReflexive(s, wiring);
    } else {
      assert s'.invitations == s.invitations[id := s'.invitations[id]];
      SendAddsOne(s, s', id, s'.invitations[id]);
      assert s.notices + [] == s.notices;
    }
  }

  lemma AcceptEffect(s: State, id: UUID, user: UUID, wiring: Wiring, luck: Luck)
    ensures var (s', ok) := AcceptedBy(s, id, user, wiring, luck);
            if PendingFor(s, id, user) && luck.finds && luck.writes then
              && s' != s
              && s'.invitations == s.invitations[id := s.invitations[id].(status := StatusToString(Accepted))]
              && s'.notices == (if ok && wiring.notifier then s.notices + [Notice(s.invitations[id].fromUser, WELCOMED)]
                                else s.notices)
            else s' == s && !ok
  {
    StatusRoundTrip(Accepted);
    hide StatusToString, RoleToString, RoleFromString, StorableRole;
    var s' := AcceptedBy(s, id, user, wiring, luck).0;
    if PendingFor(s, id, user) && luck.finds && luck.writes {
      assert s'.invitations[id].status != s.invitations[id].status;
    }
  }

  lemma AcceptBalances(s: State, t: Step, wiring: Wiring)
    requires Valid(s) && t.call.Accept?
    ensures Balanced(s, After(s, t, wiring), TallyOf(s, t, wiring), wiring)
  {
    var s', id, user := After(s, t, wiring), t.call.id, t.call.user;
    assert RECEIVED != WELCOMED;
    AcceptEffect(s, id, user, wiring, t.luck);
    hide WithStatus, NoticesOf, StatusToString, AcceptedBy, Valid, Balanced;
    if PendingFor(s, id, user) && t.luck.finds && t.luck.writes {
      AnswerMovesOne(s, s', id, Accepted);
      NoticeAdded(s.notices, Notice(s.invitations[id].fromUser, WELCOMED), RECEIVED);
      NoticeAdded(s.notices, Notice(s.invitations[id].fromUser, WELCOMED), WELCOMED);
      AcceptBalanced(s, s', AcceptedBy(s, id, user, wiring, t.luck).1, wiring);
    } else {
      BalancedReflexive(s, wiring);
    }
  }

  // The balances once the counts and the notices are known.
  lemma AcceptBalanced(s: State, s': State, ok: bool, wiring: Wiring)
    requires |WithStatus(s', Pending)| == |WithStatus(s, Pending)| - 1
        && |WithStatus(s', Accepted)| == |WithStatus(s, Accepted)| + 1
    requires |WithStatus(s', Rejected)| == |WithStatus(s, Rejected)| && |s'.invitations| == |s.invitations|
    requires NoticesOf(s'.notices, WELCOMED) == NoticesOf(s.notices, WELCOMED) + Count(ok && wiring.notifier)
    requires NoticesOf(s'.notices, RECEIVED) == NoticesOf(s.notices, RECEIVED)
    ensures Balanced(s, s', Tally(0, Count(ok), Count(!ok), 0), wiring)
  {
    hide WithStatus, NoticesOf;
  }

  lemma BalancedTransitive(s: State, s1: State, s2: State, y: Tally, z: Tally, wiring: Wiring)
    requires Balanced(s, s1, y, wiring) && Balanced(s1, s2, z, wiring)
    ensures Balanced(s, s2, Plus(y, z), wiring)
  {
  }

  /** The books balance over any run: every invitation created is pending, accepted or rejected; the accepted ones are
      the accepts that returned true and the burnt ones; and with a notifier the senders were told exactly of the
      former. */
  lemma {:induction false} BooksBalance(s: State, ts: seq<Step>, wiring: Wiring)
    requires Valid(s)
    ensures Balanced(s, Run(s, ts, wiring), Tallied(s, ts, wiring), wiring)
    ensures |Joins(s, ts, wiring)| == Tallied(s, ts, wiring).joined
    decreases |ts|
  {
    hide After, Valid, Balanced, Succeeds;
    if ts == [] {
      BalancedReflexive(s, wiring);
    } else {
      StepKeepsValid(s, ts[0], wiring);
      StepBalances(s, ts[0], wiring);
      var s1 := After(s, ts[0], wiring);
      BooksBalance(s1, ts[1..], wiring);
      BalancedTransitive(s, s1, Run(s1, ts[1..], wiring), TallyOf(s, ts[0], wiring), Tallied(s1, ts[1..], wiring),
          wiring);
    }
  }

  lemma BalancedReflexive(s: State, wiring: Wiring)
    ensures Balanced(s, s, Tally(0, 0, 0, 0), wiring)
  {
  }

  // ---- runs: who is told what ----

  // The notice a step owes: to the addressee of an invitation that was stored, to the sender of one whose accept
  // succeeded.
  function Owed(s: State, t: Step, wiring: Wiring): Option<Notice> {
    if !Succeeds(s, t, wiring) then None
    else match t.call
      case Send(_, toUser, _, _, _) => Some(Notice(toUser, RECEIVED))
      case Accept(id, _) => if id in s.invitations then Some(Notice(s.invitations[id].fromUser, WELCOMED)) else None
      case Reject(_, _) => None
  }

  function Announced(s: State, ts: seq<Step>, wiring: Wiring): seq<Notice>
    decreases |ts|
  {
    if ts == [] then []
    else
      var owed := Owed(s, ts[0], wiring);
      (if owed.Some? then [owed.value] else []) + Announced(After(s, ts[0], wiring), ts[1..], wiring)
  }

  lemma StepAnnounces(s: State, t: Step, wiring: Wiring)
    ensures var owed := Owed(s, t, wiring);
            After(s, t, wiring).notices == if wiring.notifier && owed.Some? then s.notices + [owed.value] else s.notices
  {
    match t.call
    case Accept(id, user) =>
      AcceptEffect(s, id, user, wiring, t.luck);
      hide AcceptedBy, StatusToString;
    case _ =>
      hide RoleToString, StorableRole, StatusToString;
  }

  /** Over any run, with a notifier, the notices handed out are, in order, one to the addressee of each invitation
      that was sent and one to the sender of each invitation whose accept returned true, and no others; without one,
      none. */
  lemma {:induction false} NoticesAreOwed(s: State, ts: seq<Step>, wiring: Wiring)
    ensures Run(s, ts, wiring).notices == s.notices + (if wiring.notifier then Announced(s, ts, wiring) else [])
    decreases |ts|
  {
    hide After, Owed;
    if ts == [] {
      assert s.notices + [] == s.notices;
    } else {
      StepAnnounces(s, ts[0], wiring);
      var s1, owed := After(s, ts[0], wiring), Owed(s, ts[0], wiring);
      NoticesAreOwed(s1, ts[1..], wiring);
      var rest := Announced(s1, ts[1..], wiring);
      if owed.Some? {
        Associative(s.notices, [owed.value], rest);
      } else {
        assert [] + rest == rest;
      }
    }
  }

  // The step accepts, with success, an invitation that u sent.
  predicate AcceptsOf(s: State, t: Step, wiring: Wiring, u: UUID) {
    && t.call.Accept? && Succeeds(s, t, wiring)
    && t.call.id in s.invitations && s.invitations[t.call.id].fromUser == u
  }

  function AcceptsFor(s: State, ts: seq<Step>, wiring: Wiring, u: UUID): nat
    decreases |ts|
  {
    if ts == [] then 0
    else Count(AcceptsOf(s, ts[0], wiring, u)) + AcceptsFor(After(s, ts[0], wiring), ts[1..], wiring, u)
  }

  /** So the welcome notices to a user are as many as the accepts of that user's invitations that returned true. */
  lemma {:induction false} WelcomesPerSender(s: State, ts: seq<Step>, wiring: Wiring, u: UUID)
    ensures multiset(Announced(s, ts, wiring))[Notice(u, WELCOMED)] == AcceptsFor(s, ts, wiring, u)
    ensures wiring.notifier ==>
              multiset(Run(s, ts, wiring).notices)[Notice(u, WELCOMED)]
              == multiset(s.notices)[Notice(u, WELCOMED)] + AcceptsFor(s, ts, wiring, u)
    decreases |ts|
  {
    NoticesAreOwed(s, ts, wiring);
    hide After, Run, Succeeds;
    if ts != [] {
      assert RECEIVED != WELCOMED;
      assert Owed(s, ts[0], wiring) == Some(Notice(u, WELCOMED)) <==> AcceptsOf(s, ts[0], wiring, u);
      WelcomesPerSender(After(s, ts[0], wiring), ts[1..], wiring, u);
    }
  }

  /** At every moment each invitation is in exactly one of the three states. */
  lemma StatusesPartition(s: State)
    requires Valid(s)
    ensures |s.invitations| == |WithStatus(s, Pending)| + |WithStatus(s, Accepted)| + |WithStatus(s, Rejected)|
  {
    StatusRoundTrip(Accepted);
    StatusRoundTrip(Rejected);
    StatusRoundTrip(Pending);
    var p, a, r := WithStatus(s, Pending), WithStatus(s, Accepted), WithStatus(s, Rejected);
    forall id | id in s.invitations ensures id in p + a + r {
      assert RowValid(s, s.invitations[id]);
      var status := StatusFromString(s.invitations[id].status);
      assert status.Pending? || status.Accepted? || status.Rejected?;
    }
    hide StatusToString, StatusFromString;
    assert s.invitations.Keys == p + a + r && p !! a && p + a !! r;
    assert |s.invitations.Keys| == |s.invitations|;
  }

  // ---- the service object over its tables ----

  // The rows a query answers with: the matching ids, in some order.
  ghost predicate Answer(s: State, user: UUID, rows: seq<UUID>) {
    forall id :: id in rows <==> PendingFor(s, id, user)
  }

  function FindById(list: seq<Invitation>, id: UUID): (r: Option<Invitation>)
    ensures r.Some? ==> r.value in list && r.value.id == id
    ensures r.None? ==> forall i :: 0 <= i < |list| ==> list[i].id != id
  {
    if list == [] then None else if list[0].id == id then Some(list[0]) else FindById(list[1..], id)
  }

  class InvitationService {
    const wiring: Wiring
    var users: set<UUID>
    var teams: set<UUID>
    var projects: map<UUID, UUID>
    var invitations: map<UUID, Row>
    var members: map<(UUID, UUID), string>
    var notices: seq<Notice>

    constructor (wiring: Wiring, s: State)
      ensures Snapshot() == s && this.wiring == wiring
    {
      this.wiring := wiring;
      users, teams, projects, invitations, members, notices := s.users, s.teams, s.projects, s.invitations, s.members,
          s.notices;
    }

    ghost function Snapshot(): State
      reads this
    {
      State(users, teams, projects, invitations, members, notices)
    }

    method CreateInvitation(id: UUID, row: Row) returns (created: UUID)
      modifies this`invitations
      ensures (Snapshot(), created) == Created(old(Snapshot()), id, row)
    {
      var dangling := row.fromUser !in users || row.toUser !in users || (row.teamId.Some? && row.teamId.value !in teams)
                      || (row.projectId.Some? && row.projectId.value !in projects);
      if id == "" || id in invitations || dangling || !StorableRole(row.role) {
        return "";
      }
      invitations := invitations[id := row];
      return id;
    }

    method FindPendingForUser(user: UUID, ghost s: State, rows: seq<UUID>) returns (found: seq<Invitation>)
      requires s == Snapshot() && Answer(s, user, rows)
      ensures |found| == |rows| && forall i ::
                                    0 <= i < |rows| ==>
                                      rows[i] in invitations && found[i] == MapInvitation(rows[i], invitations[rows[i]])
      ensures forall id :: FindById(found, id).Some? <==> PendingFor(s, id, user)
      ensures forall id :: PendingFor(s, id, user) ==> FindById(found, id).value == MapInvitation(id, invitations[id])
    {
      assert forall i :: 0 <= i < |rows| ==> rows[i] in rows;
      found := [];
      for i := 0 to |rows|
        invariant |found| == i
        invariant forall k :: 0 <= k < i ==> found[k] == MapInvitation(rows[k], invitations[rows[k]])
      {
        found := found + [MapInvitation(rows[i], invitations[rows[i]])];
      }
      forall id ensures FindById(found, id).Some? <==> PendingFor(s, id, user) {
        if id in rows {
          var i :| 0 <= i < |rows| && rows[i] == id;
          assert found[i].id == id;
        }
      }
    }

    method UpdateStatus(id: UUID, status: Status) returns (affected: bool)
      modifies this`invitations
      ensures (Snapshot(), affected) == Moved(old(Snapshot()), id, status)
    {
      affected := id in invitations;
      if affected {
        invitations := invitations[id := invitations[id].(status := StatusToString(status))];
      }
    }

    method AddTeamMember(team: UUID, user: UUID, role: UserRole) returns (affected: bool)
      modifies this`members
      ensures (Snapshot(), affected) == Joined(old(Snapshot()), team, user, role)
    {
      if team !in teams || user !in users || !StorableRole(RoleToString(role)) {
        return false;
      }
      members := members[(team, user) := RoleToString(role)];
      return true;
    }

    method AddProjectMember(project: UUID, user: UUID, role: UserRole) returns (affected: bool)
      modifies this`members
      ensures (Snapshot(), affected) == JoinedProject(old(Snapshot()), project, user, role)
    {
      if project !in projects {
        return false;
      }
      affected := AddTeamMember(projects[project], user, role);
    }

    method FindRoleForUser(project: UUID, user: UUID) returns (role: Option<UserRole>)
      ensures role == FindRole(Snapshot(), project, user)
    {
      if project !in projects || (projects[project], user) !in members {
        return None;
      }
      return Some(RoleFromString(members[(projects[project], user)]));
    }

    method SendInvitation(fromUser: UUID, toUser: UUID, project: UUID, role: UserRole, generated: UUID, now: int,
        luck: Luck)
      returns (created: UUID)
      requires Valid(Snapshot())
      modifies this
      ensures (Snapshot(), created)
          == Sent(old(Snapshot()), Send(fromUser, toUser, project, role, generated), now, wiring, luck)
      ensures Valid(Snapshot())
      ensures created != "" ==>
                && (forall user :: PendingFor(Snapshot(), created, user) <==> user == toUser)
                && created in invitations && invitations[created].fromUser == fromUser
                && invitations[created].teamId == None && invitations[created].projectId == Some(project)
                && RoleFromString(invitations[created].role) == role
    {
      SendStores(Snapshot(), Send(fromUser, toUser, project, role, generated), now, wiring, luck);
      StepKeepsValid(Snapshot(), Step(Send(fromUser, toUser, project, role, generated), now, luck), wiring);
      hide StorableRole, RoleToString, Valid;
      if !luck.finds || fromUser !in users || toUser !in users {
        return "";
      }
      var row := Row(fromUser, toUser, None, Some(project), RoleToString(role), StatusToString(Pending), now);
      if !luck.writes {
        return "";
      }
      created := CreateInvitation(generated, row);
      if created != "" && wiring.notifier {
        notices := notices + [Notice(toUser, RECEIVED)];
      }
    }

    method AcceptInvitation(id: UUID, user: UUID, rows: seq<UUID>, luck: Luck) returns (ok: bool)
      requires Valid(Snapshot()) && (luck.finds ==> Answer(Snapshot(), user, rows))
      modifies this
      ensures (Snapshot(), ok) == AcceptedBy(old(Snapshot()), id, user, wiring, luck)
      ensures Valid(Snapshot())
      ensures ok ==> old(Destination(Snapshot(), id, wiring)).Some?
                     && (old(Destination(Snapshot(), id, wiring)).value, user) in members
    {
      StepKeepsValid(Snapshot(), Step(Accept(id, user), 0, luck), wiring);
      AcceptSucceedsIff(Snapshot(), id, user, wiring, luck);
      hide Valid, StorableRole, RoleToString, RoleFromString, StatusToString, StatusFromString;
      var pending: seq<Invitation> := [];
      if luck.finds {
        pending := FindPendingForUser(user, Snapshot(), rows);
      }
      var invitation := FindById(pending, id);
      if invitation.None? {
        return false;
      }
      if !luck.writes {
        return false;
      }
      var updated := UpdateStatus(id, Accepted);
      if !updated {
        return false;
      }
      var persisted := false;
      var found := invitation.value;
      if luck.joins {
        if found.teamId.Some? && wiring.teamRepository {
          persisted := AddTeamMember(found.teamId.value, user, found.role);
        } else if found.projectId.Some? && wiring.projectRepository {
          persisted := AddProjectMember(found.projectId.value, user, found.role);
        }
      }
      if !persisted {
        return false;
      }
      if wiring.notifier {
        notices := notices + [Notice(found.fromUser, WELCOMED)];
      }
      return true;
    }

    method RejectInvitation(id: UUID, user: UUID, rows: seq<UUID>, luck: Luck) returns (ok: bool)
      requires Valid(Snapshot()) && (luck.finds ==> Answer(Snapshot(), user, rows))
      modifies this
      ensures (Snapshot(), ok) == RejectedBy(old(Snapshot()), id, user, luck)
      ensures Valid(Snapshot()) && members == old(members) && notices == old(notices)
    {
      StepKeepsValid(Snapshot(), Step(Reject(id, user), 0, luck), wiring);
      hide Valid, StorableRole, RoleToString, RoleFromString, StatusToString, StatusFromString;
      var pending: seq<Invitation> := [];
      if luck.finds {
        pending := FindPendingForUser(user, Snapshot(), rows);
      }
      if FindById(pending, id).None? || !luck.writes {
        return false;
      }
      ok := UpdateStatus(id, Rejected);
    }
  }
}
