/** The front-end route gate: what a guarded page shows, decided from the
    session state alone. */
module ProtectedRoute {
  import opened Common
  import opened Approval
  import opened UserModel
  import opened AuthMiddleware
  import Routes

  /** The part of the signed-in user the gate reads. */
  datatype Viewer = Viewer(role: Role, status: Status)

  function ViewerOf(a: Account): Viewer {
    Viewer(a.role, a.status)
  }

  /** What the page shows: the spinner, a redirect to the login page that
      remembers where the visitor was going, an "Access Denied" notice, or the
      guarded page itself. */
  datatype Screen = Spinner | Redirect(to: string, from: string) | Denied(message: string) | Render

  const RoleRefused: string := "You do not have permission to view this page."
  const ApprovalRefused: string := "Your teacher account must be approved to access this page."

  /** The role check: no list means no check; a list (even an empty one)
      admits only a user whose role it contains. */
  predicate RoleAdmits(user: Option<Viewer>, roles: Option<seq<Role>>) {
    roles.None? || (user.Some? && user.value.role in roles.value)
  }

  /** The approval check refuses only a teacher who is not approved. */
  predicate ApprovalAdmits(user: Option<Viewer>, requireApproved: bool) {
    !requireApproved || !(user.Some? && user.value.role == Teacher && user.value.status != Approved)
  }

  /** The checks run in order and the first that applies decides: loading
      shows the spinner whatever else holds, a visitor who is not signed in is
      redirected to /login carrying the current location, then the role check
      and the approval check may deny; a page whose every check passes is
      shown. */
  function Gate(loading: bool, isAuthenticated: bool, user: Option<Viewer>, roles: Option<seq<Role>>,
                requireApproved: bool, location: string): (s: Screen)
    ensures loading ==> s == Spinner
    ensures !loading && !isAuthenticated ==> s == Redirect("/login", location)
    ensures !loading && isAuthenticated && !RoleAdmits(user, roles) ==> s == Denied(RoleRefused)
    ensures !loading && isAuthenticated && RoleAdmits(user, roles) && !ApprovalAdmits(user, requireApproved) ==>
      s == Denied(ApprovalRefused)
    ensures s == Render <==>
      !loading && isAuthenticated && RoleAdmits(user, roles) && ApprovalAdmits(user, requireApproved)
  {
    if loading then Spinner
    else if !isAuthenticated then Redirect("/login", location)
    else if roles.Some? && !(user.Some? && user.value.role in roles.value) then Denied(RoleRefused)
    else if requireApproved && user.Some? && user.value.role == Teacher && user.value.status != Approved then
      Denied(ApprovalRefused)
    else Render
  }

  /** An empty role list shuts everyone out. */
  lemma {:induction false} EmptyRolesDenyEveryone(user: Option<Viewer>, requireApproved: bool, location: string)
    ensures Gate(false, true, user, Some([]), requireApproved, location) == Denied(RoleRefused)
  {
    assert !RoleAdmits(user, Some([]));
  }

  /** The approval check is not `isApprovedTeacher`: a student passes it,
      while the back-end check refuses every account that is not an approved
      teacher. */
  lemma StudentPassesApprovalCheck(a: Account, location: string)
    requires a.role == Student
    ensures Gate(false, true, Some(ViewerOf(a)), None, true, location) == Render
    ensures !Permits(IsApprovedTeacher, a)
  {
  }

  /** The course-creation page (teachers only, approval required) admits a
      signed-in account exactly when the route that creates a course lets it
      through. */
  lemma CreatePageMatchesCreateRoute(a: Account, location: string)
    ensures Gate(false, true, Some(ViewerOf(a)), Some([Teacher]), true, location) == Render <==>
      Routes.Allowed(Routes.CreateCourse, a)
  {
  }
}
