/** The client's route table and the guard in front of the three dashboards. */
module AppRoutes {
  import opened Wrappers
  import opened AuthContext

  /** What the guard renders: a redirect, the loading view, or the guarded page. */
  datatype View = Redirect(to: string) | Loading | Child

  /** JavaScript truthiness of an optional string. */
  predicate Present(s: Option<string>) {
    s.Some? && s.value != ""
  }

  /**
   * ProtectedRoute: no user sends the visitor home; a required type with no
   * type known yet shows the loading view; a different type sends them home.
   */
  function ProtectedRoute(user: Option<Obj>, userType: Option<string>, requiredType: Option<string>): (v: View)
    ensures user.None? ==> v == Redirect("/")
    ensures user.Some? && Present(requiredType) && !Present(userType) ==> v == Loading
    ensures v == Child <==> user.Some? && (!Present(requiredType) || userType == requiredType)
    ensures v.Redirect? ==> v.to == "/"
  {
    if user.None? then Redirect("/")
    else if Present(requiredType) && !Present(userType) then Loading
    else if Present(requiredType) && userType != requiredType then Redirect("/")
    else Child
  }

  datatype Page =
    | Home | UserLogin | UserRegister | UserDashboard
    | DriverLogin | DriverRegister | DriverDashboard
    | AdminLogin | AdminDashboard

  /** The route table: the page at each path and the account type it requires; None is the catch-all. */
  function Route(path: string): Option<(Page, Option<string>)> {
    if path == "/" then Some((Home, None))
    else if path == "/user/login" then Some((UserLogin, None))
    else if path == "/user/register" then Some((UserRegister, None))
    else if path == "/user/dashboard" then Some((UserDashboard, Some("user")))
    else if path == "/driver/login" then Some((DriverLogin, None))
    else if path == "/driver/register" then Some((DriverRegister, None))
    else if path == "/driver/dashboard" then Some((DriverDashboard, Some("driver")))
    else if path == "/admin/login" then Some((AdminLogin, None))
    else if path == "/admin/dashboard" then Some((AdminDashboard, Some("admin")))
    else None
  }

  /** What the application shows at a path for the current session. */
  datatype Screen = Show(page: Page) | Wait | GoTo(path: string)

  /** The dashboard pages and the account type each one belongs to. */
  function DashboardType(p: Page): Option<string> {
    match p
    case UserDashboard => Some("user")
    case DriverDashboard => Some("driver")
    case AdminDashboard => Some("admin")
    case _ => None
  }

  /**
   * Rendering a path: unknown paths go home, the public pages render with no
   * guard, and the three dashboards pass through ProtectedRoute.
   */
  function Render(path: string, user: Option<Obj>, userType: Option<string>): (s: Screen)
    ensures Route(path).None? ==> s == GoTo("/")
    ensures Route(path).Some? && Route(path).value.1.None? ==> s == Show(Route(path).value.0)
    ensures Route(path).Some? && Route(path).value.1.Some? ==>
      (s == Show(Route(path).value.0) <==> user.Some? && userType == Route(path).value.1)
    ensures Route(path).Some? && Route(path).value.1.Some? && user.None? ==> s == GoTo("/")
    ensures Route(path).Some? && Route(path).value.1.Some? && user.Some? && !Present(userType) ==> s == Wait
    ensures s.Show? && DashboardType(s.page).Some? ==> user.Some? && userType == DashboardType(s.page)
  {
    match Route(path)
    case None => GoTo("/")
    case Some((page, None)) => Show(page)
    case Some((page, required)) =>
      match ProtectedRoute(user, userType, required)
      case Redirect(to) => GoTo(to)
      case Loading => Wait
      case Child => Show(page)
  }

  /** The home page and the three login pages open for a visitor who is not logged in. */
  lemma PublicPagesOpen()
    ensures Render("/", None, None) == Show(Home)
    ensures Render("/user/login", None, None) == Show(UserLogin)
    ensures Render("/driver/login", None, None) == Show(DriverLogin)
    ensures Render("/admin/login", None, None) == Show(AdminLogin)
  {
  }
}
