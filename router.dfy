/** The client-side router: the two navigation guards, the table of named
    routes with the guard each carries, and where a navigation to a name
    ends once the guards have redirected it. */
module Router {
  import opened Common

  type RouteName = string

  const HomeRoute: RouteName := "home"
  const RegisterRoute: RouteName := "register"
  const LoginRoute: RouteName := "login"
  const VehiclesIndexRoute: RouteName := "vehicles.index"
  const ParkingsActiveRoute: RouteName := "parkings.active"

  datatype Guard = Unguarded | AuthGuard | GuestGuard

  datatype Route = Route(path: string, name: RouteName, guard: Guard)

  /** What a `beforeEnter` guard tells the router: go on, or go elsewhere. */
  datatype Decision = Proceed | RedirectTo(route: RouteName)

  /** The route table, in declaration order. */
  const Routes: seq<Route> := [
    Route("/", HomeRoute, Unguarded),
    Route("/register", RegisterRoute, GuestGuard),
    Route("/login", LoginRoute, GuestGuard),
    Route("/profile", "profile.edit", AuthGuard),
    Route("/profile/change-password", "profile.change-password", AuthGuard),
    Route("/vehicles", VehiclesIndexRoute, AuthGuard),
    Route("/vehicles/create", "vehicles.create", AuthGuard),
    Route("/vehicles/:id/edit", "vehicles.edit", AuthGuard),
    Route("/parkings/active", ParkingsActiveRoute, AuthGuard),
    Route("/parkings/new", "parkings.create", AuthGuard),
    Route("/parkings/history", "parkings.history", AuthGuard),
    Route("/parkings/:id", "parkings.show", AuthGuard)
  ]

  /** The `auth` guard, on the value stored under the token key. */
  function Auth(stored: Option<string>): (d: Decision)
    ensures d == Proceed <==> Truthy(stored)
    ensures d != Proceed ==> d == RedirectTo(LoginRoute)
  {
    if !Truthy(stored) then RedirectTo(LoginRoute) else Proceed
  }

  /** The `guest` guard, on the value stored under the token key. */
  function Guest(stored: Option<string>): (d: Decision)
    ensures d == Proceed <==> !Truthy(stored)
    ensures d != Proceed ==> d == RedirectTo(ParkingsActiveRoute)
  {
    if Truthy(stored) then RedirectTo(ParkingsActiveRoute) else Proceed
  }

  function Decide(g: Guard, stored: Option<string>): Decision {
    match g
    case Unguarded => Proceed
    case AuthGuard => Auth(stored)
    case GuestGuard => Guest(stored)
  }

  /** Exactly one of the two guards lets a navigation through. */
  lemma GuardsComplement(stored: Option<string>)
    ensures (Auth(stored) == Proceed) != (Guest(stored) == Proceed)
  {
  }

  /** The guard of the first route in `routes` named `name`, if any. */
  function GuardIn(routes: seq<Route>, name: RouteName): Option<Guard>
    decreases |routes|
  {
    if routes == [] then None
    else if routes[0].name == name then Some(routes[0].guard)
    else GuardIn(routes[1..], name)
  }

  function GuardOf(name: RouteName): Option<Guard> {
    GuardIn(Routes, name)
  }

  predicate NamesDistinct(routes: seq<Route>) {
    forall i, j :: 0 <= i < j < |routes| ==> routes[i].name != routes[j].name
  }

  /** In a table with distinct names, lookup finds exactly the route with
      that name, and nothing when no route has it. */
  lemma {:induction false} GuardInFinds(routes: seq<Route>, name: RouteName)
    requires NamesDistinct(routes)
    ensures GuardIn(routes, name).Some? <==> exists i :: 0 <= i < |routes| && routes[i].name == name
    ensures forall i :: 0 <= i < |routes| && routes[i].name == name ==> GuardIn(routes, name) == Some(routes[i].guard)
    decreases |routes|
  {
    if routes != [] {
      var rest := routes[1..];
      assert NamesDistinct(rest) by {
        forall i, j | 0 <= i < j < |rest| ensures rest[i].name != rest[j].name {
          assert rest[i] == routes[i + 1] && rest[j] == routes[j + 1];
        }
      }
      GuardInFinds(rest, name);
      if routes[0].name != name {
        forall i | 0 <= i < |routes| && routes[i].name == name
          ensures GuardIn(routes, name) == Some(routes[i].guard)
        {
          assert i > 0 && routes[i] == rest[i - 1];
        }
        if exists i :: 0 <= i < |routes| && routes[i].name == name {
          var i :| 0 <= i < |routes| && routes[i].name == name;
          assert routes[i] == rest[i - 1];
        }
      }
    }
  }

  /** `register` and `login` carry `guest`, `home` carries no guard, every
      other route of the table carries `auth`, and no other name is routed. */
  lemma GuardTable(name: RouteName)
    ensures GuardOf(HomeRoute) == Some(Unguarded)
    ensures GuardOf(RegisterRoute) == Some(GuestGuard)
    ensures GuardOf(LoginRoute) == Some(GuestGuard)
    ensures GuardOf(name).Some? <==> exists i :: 0 <= i < |Routes| && Routes[i].name == name
    ensures GuardOf(name).Some? && name != HomeRoute && name != RegisterRoute && name != LoginRoute
            ==> GuardOf(name) == Some(AuthGuard)
  {
    assert NamesDistinct(Routes);
    GuardInFinds(Routes, name);
    GuardInFinds(Routes, HomeRoute);
    assert Routes[0].name == HomeRoute;
    GuardInFinds(Routes, RegisterRoute);
    assert Routes[1].name == RegisterRoute;
    GuardInFinds(Routes, LoginRoute);
    assert Routes[2].name == LoginRoute;
  }

  /** Where a navigation ends. */
  datatype Landing = Landed(route: RouteName) | NoMatch | RedirectBudgetExhausted

  /** A navigation to `name`: look the route up, run its guard on the stored
      token, and follow a redirect as a new navigation, at most `redirects`
      times. The guards only read `stored`; it is the same at every hop. */
  function Navigate(name: RouteName, stored: Option<string>, redirects: nat): (l: Landing)
    ensures l.Landed? ==> GuardOf(l.route).Some? && Decide(GuardOf(l.route).value, stored) == Proceed
    decreases redirects
  {
    match GuardOf(name)
    case None => NoMatch
    case Some(g) =>
      match Decide(g, stored)
      case Proceed => Landed(name)
      case RedirectTo(next) =>
        if redirects == 0 then RedirectBudgetExhausted else Navigate(next, stored, redirects - 1)
  }

  /** With this table a navigation settles after at most one redirect: an
      `auth` route without a token lands on `login`, a `guest` route with a
      token lands on `parkings.active`, and every other routed name lands on
      itself. */
  lemma NavigateSettles(name: RouteName, stored: Option<string>, redirects: nat)
    requires redirects >= 1
    requires GuardOf(name).Some?
    ensures GuardOf(name) == Some(AuthGuard) && !Truthy(stored) ==> Navigate(name, stored, redirects) == Landed(LoginRoute)
    ensures GuardOf(name) == Some(GuestGuard) && Truthy(stored) ==> Navigate(name, stored, redirects) == Landed(ParkingsActiveRoute)
    ensures Decide(GuardOf(name).value, stored) == Proceed ==> Navigate(name, stored, redirects) == Landed(name)
  {
    GuardTable(name);
    GuardTable(ParkingsActiveRoute);
    assert Routes[8].name == ParkingsActiveRoute;
  }
}
