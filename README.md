# Parking client: session, guards and form stores in Dafny

This project models the client side of a vehicle-parking web application.
It covers the part that behaves like a small state machine:

- **The session controller** (the `auth` store). Its durable state is the access token in browser storage. The Authorization default header of the shared HTTP client is derived from it. Its operations are `check`, `setAccessToken`, `login`, `destroyTokenAndRedirectTo` and `logout`.
- **The router's two guards**, `auth` and `guest`, and the table that gives each named route its guard.
- **The HTTP client's configuration**: a response interceptor that ends the session on a 401, and the header seeded at boot from a token already in storage.
- **Six form stores** (login, register, change password, profile, parking, vehicle). Each action is one deterministic transition over the store's fields and the session.

No request is sent. The server's answer is a parameter of type `Response<T>` with three cases:
- `Ok(payload)`: a success and its body;
- `HttpError(status, errors)`: an error status and the `errors` member of its body;
- `NoResponse`: no response at all.

Each action runs as one sequential step:
1. the re-entrancy guard and the pre-request assignments;
2. the interceptor;
3. `then` or `catch`;
4. `finally`.

Layout:
- `common.dfy` (module `Common`): shared types, truthiness, the stores' shared `catch` handler.
- `router.dfy` (`Router`): guards, route table, navigation with redirects.
- `http.dfy` (`Http`): the header format, the 401 test, boot seeding.
- `auth.dfy` (`Auth`): the `Session` class, the functions that specify it, the interceptor, and a trace invariant.
- `login.dfy`, `register.dfy`, `change_password.dfy`, `profile.dfy`, `parking.dfy`, `vehicle.dfy`: one module per store. Each has a class with the store's fields, a `State()` view, and functions that specify each action.
- `scenarios.dfy` (`Scenarios`): properties that span several modules.

Every class method says that its new state equals a specification function applied to the old state. The properties are stated on those functions and proved in lemmas.

Behaviour of the code that the model keeps:
- **Clearing the token does not remove the header.** The header is built with a string template. After `setAccessToken(null)` it is the text `Bearer null` (`Auth.WithAccessToken`, `Auth.Destroyed`).
- **Registration does not log in.** A successful registration leaves the session and the route alone.
- **A missing response breaks the `catch` handler.** The stores' `catch` reads `error.response.status` with no null check. With no response it throws a TypeError. `finally` still runs, and the action's promise is rejected with that TypeError (`Rejected(TypeErrorInCatch)`).
- **`errors` starts undefined.** Each store's `errors` is a reactive object, and the code assigns its `value` property. The model's `errors` field is that property: `None` until it is first assigned, then `Some(bag)`.
- **The store's token default.** When storage is empty at boot, the store starts from its default `""`. The boot script has already seeded the header from the raw storage value (`Auth.Booted`).

## Behaviour worth noting

- After the token is cleared, requests still carry an Authorization header: `Bearer null`.
- The `guest` guard sends a logged-in user to `parkings.active`, while `login` lands on `vehicles.index`.
- The register store has no loading flag, so nothing keeps a second registration out.
- Terminating a session that was never opened still changes it: the token `""` becomes `null` and the header becomes `Bearer null`. Terminating twice leaves the same state as terminating once (`Auth.DestroyedIdempotent`).

## Model

| member | source | states |
|---|---|---|
| `Common.CatchValidation` | src/stores/login.js:34-38 | the stores' shared `catch`: throws exactly when there is no response; takes the body's errors exactly on status 422; ignores every other status |
| `Router.Auth` | src/router/index.js:3-9 | `auth` lets navigation proceed iff the stored token is truthy, otherwise redirects to `login` |
| `Router.Guest` | src/router/index.js:11-17 | `guest` lets navigation proceed iff the stored token is falsy, otherwise redirects to `parkings.active` |
| `Router.GuardsComplement` | src/router/index.js:3-17 | for every stored value, exactly one of `auth` and `guest` proceeds |
| `Router.GuardInFinds` | src/router/index.js:21-93 | in a table with distinct names, looking up a name finds that route's guard, and finds nothing iff no route has the name |
| `Router.GuardTable` | src/router/index.js:22-92 | `home` has no guard; `register` and `login` carry `guest`; every other routed name carries `auth`; names outside the table are not routed |
| `Router.Navigate` | src/router/index.js:3-17 | a navigation only lands on a route whose guard proceeds for the stored token |
| `Router.NavigateSettles` | src/router/index.js:3-92 | with this table, one redirect is enough: an `auth` route without a token lands on `login`; a `guest` route with a token lands on `parkings.active`; otherwise the route itself |
| `Http.BearerHeader` | src/stores/auth.js:13-15 | the header is `Bearer ` followed by the token, or `Bearer null` when the token is null |
| `Http.SeededHeader` | src/bootstrap.js:21-25 | at boot a header exists iff the stored token is truthy, and it is then `Bearer <token>` |
| `Auth.Check` | src/stores/auth.js:9 | `check` is true iff the token is neither null nor `""` |
| `Auth.Booted` | src/bootstrap.js:21-25 | at boot the header is `Bearer <t>` iff the stored `t` is truthy, otherwise absent; with empty storage the token is the store's default `""` (src/stores/auth.js:8); `check` holds iff the stored value is truthy |
| `Auth.WithAccessToken` | src/stores/auth.js:11-16 | after `setAccessToken(v)`, the token is `v`, the header is `Bearer v` (`Bearer null` for null), the route is unchanged, and `check` holds iff `v` is truthy |
| `Auth.LoggedIn` | src/stores/auth.js:18-22 | after `login(t)`, the token is `t`, the header is `Bearer t`, the last navigation is `vehicles.index`, and `check` holds iff `t` is non-empty |
| `Auth.Destroyed` | src/stores/auth.js:24-27 | after `destroyTokenAndRedirectTo(r)`, the token is null, `check` is false, the header is `Bearer null` and the last navigation is `r` |
| `Auth.DestroyedIdempotent` | src/stores/auth.js:24-27 | terminating twice leaves the same state as terminating once |
| `Auth.AfterResponse` | src/bootstrap.js:9-19 | a 401 error ends the session (null token, `check` false, route `login`); a success, any other status or no response leaves the session exactly as it was |
| `Auth.LoggedOut` | src/stores/auth.js:29-33 | for every server outcome, `logout` ends with a null token, `check` false and the route `login`, the same state as one termination; its promise is fulfilled on success and rejected with the request's error otherwise |
| `Auth.Session.constructor` | src/stores/auth.js:8 | the session at boot equals `Booted(stored)` |
| `Auth.Session.SetAccessToken` | src/stores/auth.js:11-16 | the new state is `WithAccessToken(old state, v)` |
| `Auth.Session.Push` | src/stores/auth.js:21 | a router push records the target name and changes nothing else |
| `Auth.Session.Login` | src/stores/auth.js:18-22 | the new state is `LoggedIn(old state, t)` |
| `Auth.Session.DestroyTokenAndRedirectTo` | src/stores/auth.js:24-27 | the new state is `Destroyed(old state, r)`; `r` defaults to `login` |
| `Auth.Session.Intercept` | src/bootstrap.js:9-19 | the response is handed on unchanged, so a success passes through and every error is rejected again; the session becomes `AfterResponse(old state, resp)` |
| `Auth.Session.Logout` | src/stores/auth.js:29-33 | the request goes through the interceptor, then `finally` terminates; the new state and the result equal `LoggedOut(old state, resp)` |
| `Auth.RunKeepsHeaderCoherent` | src/stores/auth.js:11-16 | over any sequence of session events, the header remains either absent with a falsy token, or built from the current token |
| `Auth.AuthenticatedRequestsCarryToken` | src/bootstrap.js:21-25 | from boot on, whatever happens, whenever `check` holds the header is `Bearer` followed by the current token |
| `LoginStore.Reset` | src/stores/login.js:15-21 | `resetForm` empties email and password, unsets remember and clears errors, and leaves loading as it was |
| `LoginStore.InFlight` | src/stores/login.js:26-27 | when the request starts, loading is true and errors are cleared, and the form is unchanged |
| `LoginStore.Submitted` | src/stores/login.js:23-43 | loading already true: nothing changes and nothing is sent. Otherwise loading ends false, the password ends `""`, and email and remember are kept. A success logs in with the returned token. A 422 shows the body's errors and leaves the session alone. A 401 terminates the session; any other error status leaves the session and the route alone. No response rejects with a TypeError |
| `LoginStore.Login.constructor` | src/stores/login.js:7-13 | the store starts with an empty form, no errors, not loading |
| `LoginStore.Login.ResetForm` | src/stores/login.js:15-21 | the new state is `Reset(old state)` |
| `LoginStore.Login.HandleSubmit` | src/stores/login.js:23-43 | the new store, the new session and the result equal `Submitted(old store, old session, resp)` |
| `ChangePasswordStore.Reset` | src/stores/changePassword.js:14-21 | `resetForm` clears all three password fields, errors and status, and leaves loading as it was |
| `ChangePasswordStore.InFlight` | src/stores/changePassword.js:24-26 | when the request starts, loading is true and errors and status are cleared; there is no guard |
| `ChangePasswordStore.Updated` | src/stores/changePassword.js:23-44 | every outcome clears all three password fields and ends loading false. A success sets the status `Password has been updated.`. A 422 sets the body's errors and leaves the status `""`. A 401 terminates the session; any other error status leaves the session and the route alone. No response rejects with a TypeError |
| `ChangePasswordStore.ChangePassword.constructor` | src/stores/changePassword.js:5-12 | the store starts with empty fields, no errors, empty status, not loading |
| `ChangePasswordStore.ChangePassword.ResetForm` | src/stores/changePassword.js:14-21 | the new state is `Reset(old state)` |
| `ChangePasswordStore.ChangePassword.UpdatePassword` | src/stores/changePassword.js:23-44 | the new store, session and result equal `Updated(old store, old session, resp)` |
| `RegisterStore.Reset` | src/stores/register.js:13-20 | `resetForm` empties all four fields and clears errors |
| `RegisterStore.Submitted` | src/stores/register.js:22-39 | every outcome clears both password fields and keeps name and email. A success changes neither the session nor the route. A 422 sets the body's errors. A 401 terminates the session; any other error status leaves the session and the route alone. No response rejects with a TypeError |
| `RegisterStore.Register.constructor` | src/stores/register.js:5-11 | the store starts with empty fields and no errors |
| `RegisterStore.Register.ResetForm` | src/stores/register.js:13-20 | the new state is `Reset(old state)` |
| `RegisterStore.Register.HandleSubmit` | src/stores/register.js:22-39 | the new store, session and result equal `Submitted(old store, old session, resp)` |
| `ProfileStore.Reset` | src/stores/profile.js:13-19 | `resetForm` empties name and email and clears errors and status, but does not touch loading |
| `ProfileStore.Fetched` | src/stores/profile.js:21-26 | on success the form is the response's name and email. On failure the store is unchanged and the promise is rejected with the request's error. Only a 401 touches the session |
| `ProfileStore.InFlight` | src/stores/profile.js:29-31 | when an update starts, loading is true and errors and status are cleared; there is no guard |
| `ProfileStore.Updated` | src/stores/profile.js:28-48 | every outcome ends loading false. A success replaces the form with the response's name and email and sets the status `Profile has been updated.`. Any failure keeps the form and an empty status. A 422 sets the body's errors. A 401 terminates the session; any other error status leaves the session and the route alone. No response rejects with a TypeError |
| `ProfileStore.Profile.constructor` | src/stores/profile.js:5-11 | the store starts with an empty form, no errors, empty status, not loading |
| `ProfileStore.Profile.ResetForm` | src/stores/profile.js:13-19 | the new state is `Reset(old state)` |
| `ProfileStore.Profile.FetchProfile` | src/stores/profile.js:21-26 | the new store, session and result equal `Fetched(old store, old session, resp)` |
| `ProfileStore.Profile.UpdateProfile` | src/stores/profile.js:28-48 | the new store, session and result equal `Updated(old store, old session, resp)` |
| `ParkingStore.Reset` | src/stores/parking.js:14-19 | `resetForm` sets vehicle and zone to null and clears errors |
| `ParkingStore.InFlight` | src/stores/parking.js:24-25 | when the request starts, loading is true and errors are cleared |
| `ParkingStore.Started` | src/stores/parking.js:21-38 | loading already true: a no-op. Otherwise loading ends false and vehicle and zone are kept. A success navigates to `parkings.active`. A 422 sets the body's errors and leaves the route alone. A 401 terminates the session; any other error status leaves the session and the route alone. No response rejects with a TypeError |
| `ParkingStore.Parking.constructor` | src/stores/parking.js:7-12 | the store starts with null vehicle and zone, no errors, not loading |
| `ParkingStore.Parking.ResetForm` | src/stores/parking.js:14-19 | the new state is `Reset(old state)` |
| `ParkingStore.Parking.StartParking` | src/stores/parking.js:21-38 | the new store, session and result equal `Started(old store, old session, resp)` |
| `VehicleStore.Reset` | src/stores/vehicle.js:14-19 | `resetForm` empties plate number and description and clears errors |
| `VehicleStore.InFlight` | src/stores/vehicle.js:24-25 | when the request starts, loading is true and errors are cleared |
| `VehicleStore.Stored` | src/stores/vehicle.js:21-38 | loading already true: a no-op. Otherwise loading ends false and plate number and description are kept. A success navigates to `vehicles.index`. A 422 sets the body's errors and leaves the route alone. A 401 terminates the session; any other error status leaves the session and the route alone |
| `VehicleStore.Vehicle.constructor` | src/stores/vehicle.js:7-12 | the store starts with an empty form, no errors, not loading |
| `VehicleStore.Vehicle.ResetForm` | src/stores/vehicle.js:14-19 | the new state is `Reset(old state)` |
| `VehicleStore.Vehicle.StoreVehicle` | src/stores/vehicle.js:21-38 | the new store and session equal `Stored(old store, old session, resp)` |
| `Scenarios.LoginLandsOnVehicles` | src/stores/auth.js:18-22 | after a successful login with a non-empty token, the session is authenticated, and the pushed `vehicles.index` passes its `auth` guard and lands there |
| `Scenarios.TerminationLandsOnLogin` | src/stores/auth.js:24-27 | after termination with the default target, the push to `login` passes its `guest` guard and lands there |
| `Scenarios.BootThenLogin` | src/bootstrap.js:21-25 | with empty storage at boot, the session is unauthenticated and opening the vehicle list lands on `login`; logging in with `abc123` authenticates, sets the header `Bearer abc123` and lands on the vehicle list |
| `Scenarios.RegisterEmailTaken` | src/stores/register.js:30-38 | a 422 with `{email: ["already taken"]}` shows exactly that map, clears both password fields and leaves an unauthenticated session unauthenticated |
| `Scenarios.FormStoresKeepHeaderCoherent` | src/bootstrap.js:12-15 | no action of any form store breaks the agreement between the header and the token |

## Left out

- HTTP details are not modelled. This covers the base URL, the `X-Requested-With` header, `withCredentials`, request paths and request bodies. The server's answer is a parameter.
- Asynchrony and promise scheduling are not modelled. Each action is one sequential step. The model cannot express two interleaved requests, such as a second submission to a store that has no guard, or requests from two stores at once.
- Vue reactivity, Pinia store creation, `createWebHistory` and the syncing of browser storage are not modelled. The token field stands for both the storage slot and the store's ref, which the storage library keeps equal.
- Lazy component imports, views and route path parameters are not modelled.
- `src/main.js` is only application wiring and mounting.
- The zone store only assigns a response list to a field.
- The Tailwind configuration is styling only.
- The `console.log` a successful registration makes is a logging side effect only.
- Router.Navigate: it follows at most a given number of redirects, and vue-router has no such budget. `Router.NavigateSettles` proves that one redirect is enough for this route table, so the budget does not change where a navigation lands.
- A login success is modelled with a string `access_token`. A response body without one (the header would read `Bearer undefined`) is not modelled.
- A 422 is modelled as always carrying an `errors` member. A 422 body without one is not modelled (the store would then show `undefined`).
- Terminations are not counted, so "a 401 causes exactly one termination" is not stated. It states the final session: a 401 that reaches a store's `catch` leaves the session `Destroyed(_, login)`, and `logout` ends in the same state as one termination.
- VehicleStore.Vehicle.StoreVehicle: it has no result, because `storeVehicle` does not return its promise. How that detached chain settles is not modelled. A missing response leaves it rejected and unhandled.
