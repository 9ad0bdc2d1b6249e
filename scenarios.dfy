/** Properties that span the session, the router and the form stores. */
module Scenarios {
  import opened Common
  import opened Auth
  import Router
  import LoginStore
  import RegisterStore
  import ChangePasswordStore
  import ProfileStore
  import ParkingStore
  import VehicleStore

  /** A successful login with a non-empty token lands on the vehicle list:
      the `auth` guard of that route already sees the new token. */
  lemma LoginLandsOnVehicles(st: LoginStore.LoginState, sess: SessionState, t: string)
    requires !st.loading && t != ""
    ensures var r := LoginStore.Submitted(st, sess, Ok(t));
            Check(r.session) &&
            Router.Navigate(r.session.lastRoute.value, r.session.token, 1) == Router.Landed(Router.VehiclesIndexRoute)
  {
    Router.GuardTable(Router.VehiclesIndexRoute);
    assert Router.Routes[5].name == Router.VehiclesIndexRoute;
    Router.NavigateSettles(Router.VehiclesIndexRoute, Some(t), 1);
  }

  /** After the session is terminated with the default target, the `guest`
      guard of `login` lets the navigation through. */
  lemma TerminationLandsOnLogin(s: SessionState)
    ensures var r := Destroyed(s, Router.LoginRoute);
            Router.Navigate(r.lastRoute.value, r.token, 1) == Router.Landed(Router.LoginRoute)
  {
    Router.GuardTable(Router.LoginRoute);
    Router.NavigateSettles(Router.LoginRoute, None, 1);
  }

  /** Empty storage at boot: opening the vehicle list is sent to `login`;
      logging in with "abc123" authenticates, puts the token in the header
      and lands on the vehicle list. */
  lemma BootThenLogin()
    ensures !Check(Booted(None))
    ensures Router.Navigate(Router.VehiclesIndexRoute, Booted(None).token, 1) == Router.Landed(Router.LoginRoute)
    ensures var r := LoginStore.Submitted(LoginStore.Initial, Booted(None), Ok("abc123"));
            Check(r.session) && r.session.authHeader == Some("Bearer abc123") &&
            Router.Navigate(r.session.lastRoute.value, r.session.token, 1) == Router.Landed(Router.VehiclesIndexRoute)
  {
    Router.GuardTable(Router.VehiclesIndexRoute);
    assert Router.Routes[5].name == Router.VehiclesIndexRoute;
    Router.NavigateSettles(Router.VehiclesIndexRoute, Some(""), 1);
    assert "abc123" != "";
    assert "Bearer " + "abc123" == "Bearer abc123";
    LoginLandsOnVehicles(LoginStore.Initial, Booted(None), "abc123");
  }

  /** A registration refused with 422 `{email: ["already taken"]}` shows
      exactly that error, clears both password fields and leaves an
      unauthenticated session unauthenticated. */
  lemma RegisterEmailTaken(st: RegisterStore.RegisterState, sess: SessionState)
    requires !Check(sess)
    ensures var r := RegisterStore.Submitted(st, sess, HttpError(UnprocessableStatus, map["email" := ["already taken"]]));
            r.store.errors == Some(map["email" := ["already taken"]]) &&
            r.store.form.password == "" && r.store.form.passwordConfirmation == "" &&
            !Check(r.session)
  {
  }

  /** No form-store action breaks the agreement between header and token. */
  lemma FormStoresKeepHeaderCoherent(
    sess: SessionState,
    login: LoginStore.LoginState, loginResp: Response<string>,
    register: RegisterStore.RegisterState,
    password: ChangePasswordStore.PasswordState,
    profile: ProfileStore.ProfileState, profileResp: Response<ProfileStore.ProfileData>,
    parking: ParkingStore.ParkingState,
    vehicle: VehicleStore.VehicleState,
    resp: Response<()>)
    requires HeaderCoherent(sess)
    ensures HeaderCoherent(LoginStore.Submitted(login, sess, loginResp).session)
    ensures HeaderCoherent(RegisterStore.Submitted(register, sess, resp).session)
    ensures HeaderCoherent(ChangePasswordStore.Updated(password, sess, resp).session)
    ensures HeaderCoherent(ProfileStore.Fetched(profile, sess, profileResp).session)
    ensures HeaderCoherent(ProfileStore.Updated(profile, sess, profileResp).session)
    ensures HeaderCoherent(ParkingStore.Started(parking, sess, resp).session)
    ensures HeaderCoherent(VehicleStore.Stored(vehicle, sess, resp).session)
  {
  }
}
