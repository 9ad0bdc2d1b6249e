/** The session controller (the `auth` store). Its durable state is the access
    token, which the store keeps in browser storage and the guards read back
    from there; its derived state is the Authorization default header of the
    shared HTTP client. The router's last navigation is kept beside them,
    because every operation here ends with one.

    The response interceptor sits here as well: it calls back into this
    store, and the store issues its logout request through it. */
module Auth {
  import opened Common
  import Router
  import Http

  /** The token slot (`None` is `null`), the Authorization default header
      (`None` while none is set) and the name last passed to `router.push`. */
  datatype SessionState = SessionState(
    token: Option<string>,
    authHeader: Option<string>,
    lastRoute: Option<Router.RouteName>)

  /** The store's `check`: whether a session is authenticated. */
  function Check(s: SessionState): (b: bool)
    ensures b <==> s.token != None && s.token != Some("")
  {
    Truthy(s.token)
  }

  /** The state after boot, given what storage holds under the token key:
      the boot script seeds the header from that value, and the store, when
      storage holds nothing, starts from the default `""`. */
  function Booted(stored: Option<string>): (s: SessionState)
    ensures stored.None? ==> s.token == Some("")
    ensures stored.Some? ==> s.token == stored
    ensures s.authHeader.Some? <==> Truthy(stored)
    ensures s.authHeader.Some? ==> s.authHeader.value == "Bearer " + stored.value
    ensures Check(s) <==> Truthy(stored)
    ensures s.lastRoute.None?
  {
    SessionState(if stored.None? then Some("") else stored, Http.SeededHeader(stored), None)
  }

  /** `setAccessToken(v)`: the token becomes `v` and the header is rebuilt
      from it, so clearing the token leaves the header `Bearer null`. */
  function WithAccessToken(s: SessionState, v: Option<string>): (r: SessionState)
    ensures r.token == v
    ensures v.Some? ==> r.authHeader == Some("Bearer " + v.value)
    ensures v.None? ==> r.authHeader == Some("Bearer null")
    ensures r.lastRoute == s.lastRoute
    ensures Check(r) <==> Truthy(v)
  {
    s.(token := v, authHeader := Some(Http.BearerHeader(v)))
  }

  /** `router.push({ name: route })`, as far as this state is concerned. */
  function Pushed(s: SessionState, route: Router.RouteName): SessionState {
    s.(lastRoute := Some(route))
  }

  /** `login(t)`: authenticated exactly when `t` is non-empty, the header
      carries `t`, and the router was sent to the vehicle list. */
  function LoggedIn(s: SessionState, t: string): (r: SessionState)
    ensures r.token == Some(t)
    ensures r.authHeader == Some("Bearer " + t)
    ensures r.lastRoute == Some(Router.VehiclesIndexRoute)
    ensures Check(r) <==> t != ""
  {
    Pushed(WithAccessToken(s, Some(t)), Router.VehiclesIndexRoute)
  }

  /** `destroyTokenAndRedirectTo(route)`: unauthenticated, the token `null`,
      the header `Bearer null`, the router sent to `route`. */
  function Destroyed(s: SessionState, route: Router.RouteName): (r: SessionState)
    ensures r.token.None? && !Check(r)
    ensures r.authHeader == Some("Bearer null")
    ensures r.lastRoute == Some(route)
  {
    Pushed(WithAccessToken(s, None), route)
  }

  /** Terminating an already terminated session changes nothing. */
  lemma DestroyedIdempotent(s: SessionState, route: Router.RouteName)
    ensures Destroyed(Destroyed(s, route), route) == Destroyed(s, route)
  {
  }

  /** The session after the response interceptor saw `resp`: a 401 ends it
      and sends the router to `login`; every other outcome, a success, any
      other status or no response at all, leaves it as it was. */
  function AfterResponse<T>(s: SessionState, resp: Response<T>): (r: SessionState)
    ensures resp.HttpError? && resp.status == Http.UnauthorizedStatus ==>
              !Check(r) && r.token.None? && r.lastRoute == Some(Router.LoginRoute)
    ensures !(resp.HttpError? && resp.status == Http.UnauthorizedStatus) ==> r == s
  {
    if Http.TerminatesSession(resp) then Destroyed(s, Router.LoginRoute) else s
  }

  datatype LogoutStep = LogoutStep(session: SessionState, settled: Settled)

  /** `logout()` with the server's answer `resp`: whatever it is, the session
      ends and the router is sent to `login`; the returned promise keeps the
      request's own outcome. */
  function LoggedOut(s: SessionState, resp: Response<()>): (r: LogoutStep)
    ensures !Check(r.session) && r.session.token.None?
    ensures r.session.lastRoute == Some(Router.LoginRoute)
    ensures r.session == Destroyed(s, Router.LoginRoute)
    ensures r.settled == (if resp.Ok? then Fulfilled else Rejected(OriginalError))
  {
    LogoutStep(Destroyed(AfterResponse(s, resp), Router.LoginRoute),
               if resp.Ok? then Fulfilled else Rejected(OriginalError))
  }

  class Session {
    var token: Option<string>
    var authHeader: Option<string>
    var lastRoute: Option<Router.RouteName>

    function State(): SessionState
      reads this
    {
      SessionState(token, authHeader, lastRoute)
    }

    /** The application starting with `stored` under the token key. */
    constructor (stored: Option<string>)
      ensures State() == Booted(stored)
    {
      token := if stored.None? then Some("") else stored;
      if Truthy(stored) {
        authHeader := Some(Http.BearerHeader(stored));
      } else {
        authHeader := None;
      }
      lastRoute := None;
    }

    method SetAccessToken(v: Option<string>)
      modifies this
      ensures State() == WithAccessToken(old(State()), v)
    {
      token := v;
      authHeader := Some("Bearer " + Http.Interpolated(token));
    }

    /** `router.push`: records the target; `Router.Navigate` says where the
        guards let it land. */
    method Push(route: Router.RouteName)
      modifies this
      ensures State() == Pushed(old(State()), route)
    {
      lastRoute := Some(route);
    }

    method Login(accessToken: string)
      modifies this
      ensures State() == LoggedIn(old(State()), accessToken)
    {
      SetAccessToken(Some(accessToken));
      Push(Router.VehiclesIndexRoute);
    }

    method DestroyTokenAndRedirectTo(routeName: Router.RouteName := Router.LoginRoute)
      modifies this
      ensures State() == Destroyed(old(State()), routeName)
    {
      SetAccessToken(None);
      Push(routeName);
    }

    /** The shared client's response interceptor: a success passes through;
        a failure with status 401 ends the session first; every failure is
        rejected again unchanged, so the caller's own handlers still run. */
    method Intercept<T>(resp: Response<T>) returns (delivered: Response<T>)
      modifies this
      ensures delivered == resp
      ensures State() == AfterResponse(old(State()), resp)
    {
      if resp.Ok? {
        return resp;
      }
      if Http.TerminatesSession(resp) {
        DestroyTokenAndRedirectTo();
      }
      delivered := resp;
    }

    method Logout(resp: Response<()>) returns (settled: Settled)
      modifies this
      ensures LogoutStep(State(), settled) == LoggedOut(old(State()), resp)
    {
      var delivered := Intercept(resp);
      DestroyTokenAndRedirectTo();
      settled := if delivered.Ok? then Fulfilled else Rejected(OriginalError);
    }
  }

  /** The things that change the session: the controller's operations, and
      a response passing the interceptor on behalf of any caller. */
  datatype SessionEvent =
    | SetToken(v: Option<string>)
    | LoginWith(accessToken: string)
    | DestroyTo(route: Router.RouteName)
    | LogoutWith(outcome: Response<()>)
    | Respond(outcome: Response<()>)
    | PushTo(route: Router.RouteName)

  function Apply(s: SessionState, e: SessionEvent): SessionState {
    match e
    case SetToken(v) => WithAccessToken(s, v)
    case LoginWith(t) => LoggedIn(s, t)
    case DestroyTo(route) => Destroyed(s, route)
    case LogoutWith(outcome) => LoggedOut(s, outcome).session
    case Respond(outcome) => AfterResponse(s, outcome)
    case PushTo(route) => Pushed(s, route)
  }

  function Run(s: SessionState, events: seq<SessionEvent>): SessionState
    decreases |events|
  {
    if events == [] then s else Run(Apply(s, events[0]), events[1..])
  }

  /** The header agrees with the token: there is none only while the token
      is falsy, and when there is one it is built from the current token. */
  predicate HeaderCoherent(s: SessionState) {
    match s.authHeader
    case None => !Truthy(s.token)
    case Some(h) => h == Http.BearerHeader(s.token)
  }

  lemma {:induction false} RunKeepsHeaderCoherent(s: SessionState, events: seq<SessionEvent>)
    requires HeaderCoherent(s)
    ensures HeaderCoherent(Run(s, events))
    decreases |events|
  {
    if events != [] {
      RunKeepsHeaderCoherent(Apply(s, events[0]), events[1..]);
    }
  }

  /** From boot on, whatever happens, every request sent while the session is
      authenticated carries `Bearer` and the current token. */
  lemma AuthenticatedRequestsCarryToken(stored: Option<string>, events: seq<SessionEvent>)
    ensures var s := Run(Booted(stored), events);
            Check(s) ==> s.authHeader == Some("Bearer " + s.token.value)
  {
    RunKeepsHeaderCoherent(Booted(stored), events);
  }
}
