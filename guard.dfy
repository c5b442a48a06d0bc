/** The single-page client's route guard `ProtectedRoute` and its route
    table. The stored token and stored user are the inputs; the outcome is a
    redirect or the page rendered inside the layout. */
module RouteGuard {
  import opened Common

  /** The `allowedRole` prop when given: one role or an array of roles. */
  datatype RoleSpec = One(role: Role) | AnyOf(roles: seq<Role>)

  /** What the browser's storage holds: the token (absent or a string) and
      the stored user's role (absent when no user, or a user without a role,
      is stored). */
  datatype Session = Session(token: Option<string>, role: Option<Role>)

  /** A redirect, a page rendered inside the layout for the stored role, or a
      public page rendered on its own. */
  datatype Outcome = Redirect(to: string) | Render(layoutRole: Option<Role>) | Bare(page: string)

  /** A missing or empty token is falsy. */
  predicate HasToken(s: Session)
  {
    s.token.Some? && s.token.value != ""
  }

  /** `isAllowed`: an array admits the roles it includes; a single role admits
      an equal role; with no `allowedRole` the comparison is against
      `undefined`, so only a missing role compares equal. */
  predicate IsAllowed(allowed: Option<RoleSpec>, role: Option<Role>)
  {
    match allowed
    case Some(AnyOf(roles)) => role.Some? && role.value in roles
    case Some(One(r)) => role == Some(r)
    case None => role.None?
  }

  /** `ProtectedRoute`. */
  function Guard(s: Session, allowed: Option<RoleSpec>): (r: Outcome)
    ensures !HasToken(s) ==> r == Redirect("/login")
    ensures HasToken(s) && allowed.None? ==> r == Render(s.role)
    ensures HasToken(s) && allowed.Some? ==>
      r == if IsAllowed(allowed, s.role) then Render(s.role) else Redirect("/")
  {
    if !HasToken(s) then Redirect("/login")
    else if allowed.Some? && !IsAllowed(allowed, s.role) then Redirect("/")
    else Render(s.role)
  }

  /** With a token, a page is rendered exactly when no `allowedRole` is given
      or the stored role is among the allowed ones; a missing stored role is
      rejected by every given `allowedRole`. */
  lemma GuardAdmits(s: Session, allowed: Option<RoleSpec>)
    requires HasToken(s)
    ensures Guard(s, allowed).Render? <==>
      match allowed
      case None => true
      case Some(One(r)) => s.role == Some(r)
      case Some(AnyOf(roles)) => s.role.Some? && s.role.value in roles
    ensures allowed.Some? && s.role.None? ==> Guard(s, allowed) == Redirect("/")
  {
  }

  datatype Element = Page(name: string) | Protected(allowed: RoleSpec, page: string) | Navigate(to: string)

  datatype Route = Route(path: string, element: Element)

  /** The route table of the application, in declaration order: two public
      pages, ten guarded pages and the default redirect, each path declared
      once. */
  function Routes(): (r: seq<Route>)
    ensures |r| == 13
    ensures forall i :: 0 <= i < |r| ==> (r[i].element.Page? <==> i < 2) && (r[i].element.Navigate? <==> i == 12)
    ensures forall i, j :: 0 <= i < j < |r| ==> r[i].path != r[j].path
  {
    [ Route("/login", Page("Login")),
      Route("/register", Page("Register")),
      Route("/admin/*", Protected(One(Admin), "AdminDashboard")),
      Route("/admin/users", Protected(One(Admin), "PendingUsers")),
      Route("/admin/requests", Protected(One(Admin), "EventRequestsPage")),
      Route("/team", Protected(AnyOf([Admin, Member]), "Team")),
      Route("/member", Protected(One(Member), "MemberDashboard")),
      Route("/member/events", Protected(AnyOf([Member, Admin]), "MemberEvents")),
      Route("/member/proposals", Protected(AnyOf([Member, Admin]), "MyProposals")),
      Route("/member/community", Protected(AnyOf([Member, Admin]), "CommunityProposals")),
      Route("/member/propose", Protected(AnyOf([Member, Admin]), "ProposeEvent")),
      Route("/member/profile", Protected(AnyOf([Member, Admin]), "Profile")),
      Route("/", Navigate("/login")) ]
  }

  /** Visiting the element of a route with a given session. */
  function Visit(e: Element, s: Session): Outcome
  {
    match e
    case Page(name) => Bare(name)
    case Protected(allowed, _) => Guard(s, Some(allowed))
    case Navigate(to) => Redirect(to)
  }

  predicate StartsWith(path: string, prefix: string)
  {
    |prefix| <= |path| && path[..|prefix|] == prefix
  }

  /** The routes under `/admin` are the three admin pages. */
  lemma AdminSection()
    ensures forall i :: 0 <= i < |Routes()| ==> (StartsWith(Routes()[i].path, "/admin") <==> 2 <= i <= 4)
  {
    var rs := Routes();
    forall i | 0 <= i < |rs|
      ensures StartsWith(rs[i].path, "/admin") <==> 2 <= i <= 4
    {
      if i < 2 || i == 5 {
        assert rs[i].path[1] != 'a';
      } else if 6 <= i < 12 {
        assert rs[i].path[1] == 'm';
      } else if i == 12 {
        assert |rs[i].path| < 6;
      } else {
        assert rs[i].path[..6] == "/admin";
      }
    }
  }

  /** Every `/admin` route renders for an admin with a token and sends every
      other session away. */
  lemma AdminRoutesAdminOnly(s: Session)
    ensures forall i :: 0 <= i < |Routes()| && StartsWith(Routes()[i].path, "/admin") ==>
      (Visit(Routes()[i].element, s).Render? <==> HasToken(s) && s.role == Some(Admin))
  {
    AdminSection();
  }

  /** The member dashboard is member-only: it renders exactly for a member
      with a token, and an admin is redirected to "/". */
  lemma MemberDashboardMemberOnly(s: Session)
    ensures Routes()[6].path == "/member"
    ensures Visit(Routes()[6].element, s).Render? <==> HasToken(s) && s.role == Some(Member)
    ensures HasToken(s) && s.role == Some(Admin) ==> Visit(Routes()[6].element, s) == Redirect("/")
  {
  }

  predicate Shared(e: Element)
  {
    e.Protected? && e.allowed.AnyOf?
  }

  /** The other member pages and the team page admit both roles. */
  lemma SharedPagesAdmitBoth(s: Session)
    requires HasToken(s) && s.role.Some?
    ensures forall i :: 0 <= i < |Routes()| && Shared(Routes()[i].element) ==>
      Visit(Routes()[i].element, s) == Render(s.role)
  {
    var rs := Routes();
    assert s.role.value == Admin || s.role.value == Member;
    forall i | 0 <= i < |rs| && Shared(rs[i].element)
      ensures Visit(rs[i].element, s) == Render(s.role)
    {
      assert rs[i].element.allowed.roles in {[Admin, Member], [Member, Admin]};
    }
  }

  /** The login and registration pages are shown, outside the layout, to
      every session. */
  lemma PublicPagesOpen(s: Session)
    ensures Visit(Routes()[0].element, s) == Bare("Login") && Routes()[0].path == "/login"
    ensures Visit(Routes()[1].element, s) == Bare("Register") && Routes()[1].path == "/register"
  {
  }

  /** "/" always redirects to the login page. */
  lemma RootRedirects(s: Session)
    ensures Routes()[12].path == "/"
    ensures Visit(Routes()[12].element, s) == Redirect("/login")
  {
  }

  /** No protected route renders without a token. */
  lemma NoTokenNoPage(s: Session)
    requires !HasToken(s)
    ensures forall i :: 0 <= i < |Routes()| && Routes()[i].element.Protected? ==>
      Visit(Routes()[i].element, s) == Redirect("/login")
  {
  }
}
