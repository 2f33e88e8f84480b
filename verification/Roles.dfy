/** Roles and capabilities of domain/auth/capabilities.hpp, and the role column's CHECK constraint. */
module Roles {
  datatype UserRole = Admin | BackendDev | FrontendDev | Viewer

  datatype Capability = ViewEndpoints | EditEndpoints | DeleteEndpoints | PublishEndpoints | RunTests | ManageTeam

  function CapabilitiesForRole(role: UserRole): set<Capability> {
    match role
    case Admin => {ViewEndpoints, EditEndpoints, DeleteEndpoints, PublishEndpoints, RunTests, ManageTeam}
    case BackendDev => {ViewEndpoints, EditEndpoints, PublishEndpoints, RunTests}
    case FrontendDev => {ViewEndpoints, EditEndpoints, RunTests}
    case Viewer => {ViewEndpoints, RunTests}
  }

  function RoleFromString(s: string): UserRole {
    if s == "admin" then Admin
    else if s == "backend_dev" then BackendDev
    else if s == "frontend_dev" then FrontendDev
    else Viewer
  }

  function RoleToString(role: UserRole): string {
    match role
    case Admin => "admin"
    case BackendDev => "backend_dev"
    case FrontendDev => "frontend_dev"
    case Viewer => "viewer"
  }

  predicate HasCapability(role: UserRole, capability: Capability) {
    capability in CapabilitiesForRole(role)
  }

  // check (role in (...)) of team_members and invitations.
  predicate StorableRole(s: string) {
    s == "owner" || s == "backend_dev" || s == "frontend_dev" || s == "viewer"
  }

  /** Every role reads back as itself, and every role but Admin may be stored. */
  lemma RoleRoundTrip(role: UserRole)
    ensures RoleFromString(RoleToString(role)) == role
    ensures StorableRole(RoleToString(role)) <==> role != Admin
    ensures RoleToString(role) != ""
  {
    assert "admin" != "viewer" && "admin"[0] != "owner"[0] && "admin"[0] != "backend_dev"[0];
    assert "viewer" != "backend_dev" && "viewer" != "frontend_dev";
  }

  /** The names of the roles: three are read as such, any other text as Viewer; the column admits "owner" and the names
      of all roles but "admin". */
  lemma RoleNames(s: string)
    ensures RoleFromString(s) == Admin <==> s == "admin"
    ensures RoleFromString(s) == BackendDev <==> s == "backend_dev"
    ensures RoleFromString(s) == FrontendDev <==> s == "frontend_dev"
    ensures RoleToString(Admin) == "admin" && RoleToString(BackendDev) == "backend_dev"
    ensures RoleToString(FrontendDev) == "frontend_dev" && RoleToString(Viewer) == "viewer"
    ensures StorableRole(s) <==> s == "owner" || (s == RoleToString(RoleFromString(s)) && s != "admin")
  {
    assert "owner"[0] != "admin"[0] && "viewer" != "admin";
    assert "admin"[0] != "backend_dev"[0] && "admin"[0] != "frontend_dev"[0] && "backend_dev"[0] != "frontend_dev"[0];
  }

  /** Who may do what: everyone views and runs tests, all but viewers edit, backend developers and administrators
      publish, and only administrators delete and manage the team. */
  lemma CapabilityTable(role: UserRole, capability: Capability)
    ensures HasCapability(role, capability) <==>
              match capability
              case ViewEndpoints => true
              case RunTests => true
              case EditEndpoints => role != Viewer
              case PublishEndpoints => role == Admin || role == BackendDev
              case DeleteEndpoints => role == Admin
              case ManageTeam => role == Admin
  {
  }

  /** The column admits "owner", which reads as Viewer, and refuses "admin": so no stored role reads as
      Admin, and none grants deletion or team management. */
  lemma StoredRoleCapabilities(s: string)
    requires StorableRole(s)
    ensures RoleFromString(s) != Admin
    ensures !HasCapability(RoleFromString(s), DeleteEndpoints) && !HasCapability(RoleFromString(s), ManageTeam)
    ensures s == "owner" ==> RoleFromString(s) == Viewer
  {
    assert "owner"[0] != "admin"[0] && "backend_dev"[0] != "admin"[0] && "frontend_dev"[0] != "admin"[0]
        && "viewer"[0] != "admin"[0];
    assert "owner"[0] != "backend_dev"[0] && "owner"[0] != "frontend_dev"[0];
  }
}
