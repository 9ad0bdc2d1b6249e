/** The login form store: email, password and "remember me", the validation
    errors of the last attempt, and a loading flag that keeps a second
    submission out while one is in flight. */
module LoginStore {
  import opened Common
  import opened Auth
  import Router
  import Http

  datatype LoginForm = LoginForm(email: string, password: string, remember: bool)

  /** `errors` is the store's `errors.value`, absent until first assigned. */
  datatype LoginState = LoginState(form: LoginForm, errors: Option<ErrorBag>, loading: bool)

  datatype LoginStep = LoginStep(store: LoginState, session: SessionState, result: Submission)

  const Initial := LoginState(LoginForm("", "", false), None, false)

  /** `resetForm()`: an empty form without errors; the loading flag stays. */
  function Reset(st: LoginState): (r: LoginState)
    ensures r.form.email == "" && r.form.password == "" && !r.form.remember
    ensures r.errors == Some(NoErrors)
    ensures r.loading == st.loading
  {
    LoginState(LoginForm("", "", false), Some(NoErrors), st.loading)
  }

  /** The store while the request is in flight. */
  function InFlight(st: LoginState): (r: LoginState)
    ensures r.loading && r.errors == Some(NoErrors)
    ensures r.form == st.form
  {
    st.(loading := true, errors := Some(NoErrors))
  }

  /** The `finally` handler: the password is cleared and loading ends. */
  function Finished(st: LoginState): LoginState {
    st.(form := st.form.(password := ""), loading := false)
  }

  /** `handleSubmit()` when the login request comes back with `resp` (the
      payload of a success is its `access_token`). */
  function Submitted(st: LoginState, sess: SessionState, resp: Response<string>): (r: LoginStep)
    ensures st.loading ==> r == LoginStep(st, sess, Skipped)
    ensures !st.loading ==>
              r.result.Sent? && !r.store.loading && r.store.form.password == "" &&
              r.store.form.email == st.form.email && r.store.form.remember == st.form.remember
    ensures !st.loading && resp.Ok? ==>
              r.session == LoggedIn(sess, resp.payload) &&
              r.store.errors == Some(NoErrors) && r.result == Sent(Fulfilled)
    ensures !st.loading && resp.HttpError? && resp.status == UnprocessableStatus ==>
              r.store.errors == Some(resp.errors) && r.session == sess && r.result == Sent(Fulfilled)
    ensures !st.loading && resp.HttpError? && resp.status != UnprocessableStatus ==>
              r.store.errors == Some(NoErrors) && r.result == Sent(Fulfilled)
    ensures !st.loading && resp.HttpError? && resp.status == Http.UnauthorizedStatus ==>
              r.session == Destroyed(sess, Router.LoginRoute)
    ensures resp.HttpError? && resp.status != Http.UnauthorizedStatus ==> r.session == sess
    ensures !st.loading && resp.NoResponse? ==>
              r.store.errors == Some(NoErrors) && r.session == sess &&
              r.result == Sent(Rejected(TypeErrorInCatch))
  {
    if st.loading then LoginStep(st, sess, Skipped)
    else
      var pending := InFlight(st);
      var s := AfterResponse(sess, resp);
      if resp.Ok? then
        LoginStep(Finished(pending), LoggedIn(s, resp.payload), Sent(Fulfilled))
      else
        var c := CatchValidation(resp);
        LoginStep(Finished(pending.(errors := ErrorsAfter(pending.errors, c))), s, Sent(SettledAfter(c)))
  }

  class Login {
    var email: string
    var password: string
    var remember: bool
    var errors: Option<ErrorBag>
    var loading: bool

    function State(): LoginState
      reads this
    {
      LoginState(LoginForm(email, password, remember), errors, loading)
    }

    constructor ()
      ensures State() == Initial
    {
      email, password, remember := "", "", false;
      errors := None;
      loading := false;
    }

    method ResetForm()
      modifies this
      ensures State() == Reset(old(State()))
    {
      email := "";
      password := "";
      remember := false;
      errors := Some(NoErrors);
    }

    method HandleSubmit(session: Session, resp: Response<string>) returns (result: Submission)
      modifies this, session
      ensures LoginStep(State(), session.State(), result) == Submitted(old(State()), old(session.State()), resp)
    {
      if loading {
        return Skipped;
      }
      loading := true;
      errors := Some(NoErrors);
      var delivered := session.Intercept(resp);
      if delivered.Ok? {
        session.Login(delivered.payload);
        result := Sent(Fulfilled);
      } else {
        var c := CatchValidation(delivered);
        if c.SetErrors? {
          errors := Some(c.bag);
        }
        result := Sent(SettledAfter(c));
      }
      password := "";
      loading := false;
    }
  }
}
