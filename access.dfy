/** Route and access gating of the single-page app (src/App.jsx): which
    screen each path renders, or where it redirects, for a given session
    and profile; the redirect effect; and the session, profile and loading
    state the authentication callbacks update. */
module Access {
  import opened Wrappers
  import opened Roles

  /** The slice of a `profiles` row the router looks at. */
  datatype Profile = Profile(approved: bool, role: Role)

  datatype Screen =
    | LoginForm | SignupForm | ProfileNotFound | PendingScreen
    | VolunteerPage | CalendarPage | CataloguePage | SignaturesPage | UsersPage | SettingsPage
    | AdminDashboard | LeaderDashboard | MemberDashboard

  /** What the app shows for a path: the loading screen, a replacing
      redirect, or a screen. */
  datatype Outcome = Loading | Redirect(to: string) | Render(screen: Screen)

  predicate Approved(profile: Option<Profile>) {
    profile.Some? && profile.value.approved
  }

  function RoleOf(profile: Option<Profile>): Option<Role> {
    if profile.Some? then Some(profile.value.role) else None
  }

  /** The gate shared by the six member pages: no session goes to the login
      form, a missing or unapproved profile goes to the pending page. */
  function MemberPage(session: bool, profile: Option<Profile>, page: Screen): Outcome {
    if !session then Redirect("/login")
    else if !Approved(profile) then Redirect("/pending")
    else Render(page)
  }

  /** The element of the route matching `path`. Nothing but the loading
      screen is shown while loading, and every screen rendered is one the
      access policy (`Permitted`, below) allows. */
  function Route(path: string, loading: bool, session: bool, profile: Option<Profile>): (r: Outcome)
    ensures r == Loading <==> loading
    ensures r.Render? ==> Permitted(r.screen, session, profile)
    ensures r.Redirect? ==> r.to in {"/login", "/pending", "/dashboard"}
  {
    if loading then Loading
    else if path == "/login" then (if session then Redirect("/dashboard") else Render(LoginForm))
    else if path == "/signup" then (if session then Redirect("/dashboard") else Render(SignupForm))
    else if path == "/pending" then
      if !session then Redirect("/login")
      else if profile.None? then Render(ProfileNotFound)
      else if profile.value.approved then Redirect("/dashboard")
      else Render(PendingScreen)
    else if path == "/volunteer" then MemberPage(session, profile, VolunteerPage)
    else if path == "/calendar" then MemberPage(session, profile, CalendarPage)
    else if path == "/members" then
      if session && Approved(profile) && !IsManager(RoleOf(profile)) then Redirect("/dashboard")
      else MemberPage(session, profile, CataloguePage)
    else if path == "/signatures" then
      if session && Approved(profile) && RoleOf(profile) != Some(Admin) then Redirect("/dashboard")
      else MemberPage(session, profile, SignaturesPage)
    else if path == "/users" then
      if session && Approved(profile) && RoleOf(profile) != Some(Admin) then Redirect("/dashboard")
      else MemberPage(session, profile, UsersPage)
    else if path == "/settings" then MemberPage(session, profile, SettingsPage)
    else if path == "/dashboard" then
      if !session then Redirect("/login")
      else if profile.None? then Render(ProfileNotFound)
      else if !profile.value.approved then Redirect("/pending")
      else
        assert RoleOf(profile) == Some(profile.value.role);
        if profile.value.role == Admin then Render(AdminDashboard)
        else if profile.value.role == Leader then Render(LeaderDashboard)
        else assert profile.value.role == Member; Render(MemberDashboard)
    else if session then Redirect("/dashboard")
    else Redirect("/login")
  }

  /** Paths that need a session. */
  const ProtectedPaths: set<string> :=
    {"/pending", "/volunteer", "/calendar", "/members", "/signatures", "/users", "/settings", "/dashboard"}

  /** Paths that also need an approved profile. */
  const GatedPaths: set<string> := {"/volunteer", "/calendar", "/members", "/signatures", "/users", "/settings"}

  /** Who may see a screen: an independent statement of the access policy. */
  predicate Permitted(screen: Screen, session: bool, profile: Option<Profile>) {
    match screen
    case LoginForm => !session
    case SignupForm => !session
    case ProfileNotFound => session && profile.None?
    case PendingScreen => session && profile.Some? && !profile.value.approved
    case CataloguePage => session && Approved(profile) && IsManager(RoleOf(profile))
    case SignaturesPage => session && Approved(profile) && RoleOf(profile) == Some(Admin)
    case UsersPage => session && Approved(profile) && RoleOf(profile) == Some(Admin)
    case AdminDashboard => session && Approved(profile) && RoleOf(profile) == Some(Admin)
    case LeaderDashboard => session && Approved(profile) && RoleOf(profile) == Some(Leader)
    case MemberDashboard => session && Approved(profile) && RoleOf(profile) == Some(Member)
    case _ => session && Approved(profile)
  }

  /** Without a session every protected path redirects to the login form. */
  lemma NoSessionGoesToLogin(path: string, profile: Option<Profile>)
    requires path in ProtectedPaths
    ensures Route(path, false, false, profile) == Redirect("/login")
  {
  }

  /** With a session but no approved profile, the six member pages redirect
      to the pending page. */
  lemma UnapprovedGoesToPending(path: string, profile: Option<Profile>)
    requires path in GatedPaths && !Approved(profile)
    ensures Route(path, false, true, profile) == Redirect("/pending")
  {
  }

  /** The catalogue renders exactly for approved admins and leaders with a
      session; any other approved user is sent to the dashboard. */
  lemma CatalogueForManagers(session: bool, profile: Option<Profile>)
    ensures Route("/members", false, session, profile) == Render(CataloguePage)
            <==> session && Approved(profile) && IsManager(RoleOf(profile))
    ensures session && Approved(profile) && !IsManager(RoleOf(profile))
            ==> Route("/members", false, session, profile) == Redirect("/dashboard")
  {
  }

  /** The signature review and the user list render exactly for approved
      admins with a session. */
  lemma AdminPagesForAdmins(session: bool, profile: Option<Profile>)
    ensures Route("/signatures", false, session, profile) == Render(SignaturesPage)
            <==> session && Approved(profile) && RoleOf(profile) == Some(Admin)
    ensures Route("/users", false, session, profile) == Render(UsersPage)
            <==> session && Approved(profile) && RoleOf(profile) == Some(Admin)
    ensures session && Approved(profile) && RoleOf(profile) != Some(Admin)
            ==> Route("/signatures", false, session, profile) == Redirect("/dashboard")
                && Route("/users", false, session, profile) == Redirect("/dashboard")
  {
  }

  /** An approved member with a session reaches every page their role
      allows: nothing the policy permits is refused. */
  lemma RouteIsComplete(session: bool, profile: Option<Profile>)
    requires session && Approved(profile)
    ensures Route("/volunteer", false, session, profile) == Render(VolunteerPage)
    ensures Route("/calendar", false, session, profile) == Render(CalendarPage)
    ensures Route("/settings", false, session, profile) == Render(SettingsPage)
    ensures IsManager(RoleOf(profile)) ==> Route("/members", false, session, profile) == Render(CataloguePage)
    ensures RoleOf(profile) == Some(Admin) ==> Route("/users", false, session, profile) == Render(UsersPage)
    ensures Route("/dashboard", false, session, profile).Render?
  {
  }

  /** The dashboard is chosen by role, anything but admin or leader getting
      the member dashboard. */
  lemma DashboardByRole(profile: Profile)
    requires profile.approved
    ensures Route("/dashboard", false, true, Some(profile))
         == Render(if profile.role == Admin then AdminDashboard
                   else if profile.role == Leader then LeaderDashboard
                   else MemberDashboard)
  {
  }

  // ---------------------------------------------------------------------
  // Effects
  // ---------------------------------------------------------------------

  const PublicPaths: seq<string> := ["/login", "/signup", "/"]

  /** The redirect effect run on load and on every change of `loading`,
      `session` or `profile`. While loading it does nothing; otherwise it
      redirects to the login form exactly when there is no session and the
      path is not public, and to the pending page exactly for an unapproved
      profile away from it. */
  function RedirectEffect(path: string, loading: bool, session: bool, profile: Option<Profile>): (r: Option<string>)
    ensures loading ==> r.None?
    ensures r == Some("/login") <==> !loading && !session && path !in {"/login", "/signup", "/"}
    ensures r == Some("/pending") <==> !loading && session && profile.Some? && !profile.value.approved && path != "/pending"
    ensures r.Some? ==> r == Some("/login") || r == Some("/pending")
  {
    var isPublicPath := path in PublicPaths;
    if !loading && !session && !isPublicPath then Some("/login")
    else if !loading && session && profile.Some? then
      if !profile.value.approved && path != "/pending" then Some("/pending") else None
    else None
  }

  /** On every protected page the effect sends the user where the route
      element would: it never disagrees with the router. */
  lemma EffectAgreesWithRoute(path: string, loading: bool, session: bool, profile: Option<Profile>)
    requires path in GatedPaths || path == "/dashboard"
    ensures RedirectEffect(path, loading, session, profile).Some? ==>
              Route(path, loading, session, profile) == Redirect(RedirectEffect(path, loading, session, profile).value)
  {
  }

  /** The resize effect: a window at least 968 pixels wide on the calendar
      page is sent to the dashboard, which shows the calendar inline. */
  function ResizeRedirect(width: int, path: string): (r: Option<string>)
    ensures r.Some? <==> width >= 968 && path == "/calendar"
    ensures r.Some? ==> r.value == "/dashboard"
  {
    var isLargeScreen := width >= 968;
    if isLargeScreen && path == "/calendar" then Some("/dashboard") else None
  }

  // ---------------------------------------------------------------------
  // Authentication state
  // ---------------------------------------------------------------------

  /** `session`, `profile` and `loading` of `App`, and the profile fetch in
      flight (`request`: the user whose profile is being loaded). */
  class AuthState {
    var session: Option<string>
    var profile: Option<Profile>
    var loading: bool
    var request: Option<string>

    constructor()
      ensures session.None? && profile.None? && loading && request.None?
    {
      session := None;
      profile := None;
      loading := true;
      request := None;
    }

    /** The start of `loadProfile(userId)`. */
    method BeginLoadProfile(userId: string)
      modifies this
      ensures loading && request == Some(userId)
      ensures session == old(session) && profile == old(profile)
    {
      loading := true;
      request := Some(userId);
    }

    /** The end of `loadProfile`: the fetched row replaces the profile, an
        error keeps the old one; loading ends either way. */
    method ProfileLoaded(fetched: Option<Profile>)
      modifies this
      ensures profile == (if fetched.Some? then fetched else old(profile))
      ensures !loading && request.None? && session == old(session)
    {
      if fetched.Some? {
        profile := fetched;
      }
      loading := false;
      request := None;
    }

    /** `getSession()` resolved: with a session, load its profile; without
        one, stop loading. */
    method SessionResolved(s: Option<string>)
      modifies this
      ensures session == s && profile == old(profile)
      ensures s.Some? ==> loading && request == Some(s.value)
      ensures s.None? ==> !loading && request == old(request)
    {
      session := s;
      if s.Some? {
        BeginLoadProfile(s.value);
      } else {
        loading := false;
      }
    }

    /** `onAuthStateChange`: record the session, start loading its profile
        or drop the profile on sign-out, then end loading at once, even
        while the profile fetch it started is still in flight. */
    method AuthStateChanged(s: Option<string>)
      modifies this
      ensures session == s && !loading
      ensures s.Some? ==> request == Some(s.value) && profile == old(profile)
      ensures s.None? ==> profile.None? && request == old(request)
    {
      session := s;
      if s.Some? {
        BeginLoadProfile(s.value);
      } else {
        profile := None;
      }
      loading := false;
    }

    /** What the app shows at `path` in this state. */
    function View(path: string): Outcome
      reads this
    {
      Route(path, loading, session.Some?, profile)
    }
  }

  /** On a first sign-in the dashboard reports a missing profile until the
      fetch started by the auth callback completes, because that callback
      ends loading before the fetch returns. */
  method FirstSignInShowsProfileNotFound(userId: string) returns (shown: Outcome)
    ensures shown == Render(ProfileNotFound)
  {
    var state := new AuthState();
    state.SessionResolved(None);
    state.AuthStateChanged(Some(userId));
    shown := state.View("/dashboard");
  }
}
