/** The change-password form store: the current password, the new one and
    its confirmation, the errors of the last attempt, a status message and a
    loading flag. It has no re-entrancy guard: the flag is only shown. */
module ChangePasswordStore {
  import opened Common
  import opened Auth
  import Router
  import Http

  datatype PasswordForm = PasswordForm(currentPassword: string, password: string, passwordConfirmation: string)

  const EmptyForm := PasswordForm("", "", "")

  /** `errors` is the store's `errors.value`, absent until first assigned. */
  datatype PasswordState = PasswordState(form: PasswordForm, errors: Option<ErrorBag>, status: string, loading: bool)

  datatype PasswordStep = PasswordStep(store: PasswordState, session: SessionState, settled: Settled)

  const Initial := PasswordState(EmptyForm, None, "", false)

  const UpdatedStatus := "Password has been updated."

  /** `resetForm()`: all three fields, the errors and the status cleared; the
      loading flag stays. */
  function Reset(st: PasswordState): (r: PasswordState)
    ensures r.form.currentPassword == "" && r.form.password == "" && r.form.passwordConfirmation == ""
    ensures r.errors == Some(NoErrors) && r.status == ""
    ensures r.loading == st.loading
  {
    PasswordState(EmptyForm, Some(NoErrors), "", st.loading)
  }

  /** The store while the request is in flight. */
  function InFlight(st: PasswordState): (r: PasswordState)
    ensures r.loading && r.errors == Some(NoErrors) && r.status == ""
    ensures r.form == st.form
  {
    st.(loading := true, errors := Some(NoErrors), status := "")
  }

  /** The `finally` handler: every password field cleared, loading ended. */
  function Finished(st: PasswordState): PasswordState {
    st.(form := EmptyForm, loading := false)
  }

  /** `updatePassword()` when the request comes back with `resp`. It is sent
      whatever the loading flag says. */
  function Updated(st: PasswordState, sess: SessionState, resp: Response<()>): (r: PasswordStep)
    ensures r.store.form.currentPassword == "" && r.store.form.password == "" &&
            r.store.form.passwordConfirmation == ""
    ensures !r.store.loading
    ensures resp.Ok? ==>
              r.store.status == UpdatedStatus && r.store.errors == Some(NoErrors) &&
              r.session == sess && r.settled == Fulfilled
    ensures resp.HttpError? && resp.status == UnprocessableStatus ==>
              r.store.errors == Some(resp.errors) && r.store.status == "" &&
              r.session == sess && r.settled == Fulfilled
    ensures resp.HttpError? && resp.status != UnprocessableStatus ==>
              r.store.errors == Some(NoErrors) && r.store.status == "" && r.settled == Fulfilled
    ensures resp.HttpError? && resp.status == Http.UnauthorizedStatus ==>
              r.session == Destroyed(sess, Router.LoginRoute)
    ensures resp.HttpError? && resp.status != Http.UnauthorizedStatus ==> r.session == sess
    ensures resp.NoResponse? ==>
              r.store.errors == Some(NoErrors) && r.store.status == "" &&
              r.session == sess && r.settled == Rejected(TypeErrorInCatch)
  {
    var pending := InFlight(st);
    var s := AfterResponse(sess, resp);
    if resp.Ok? then
      PasswordStep(Finished(pending.(status := UpdatedStatus)), s, Fulfilled)
    else
      var c := CatchValidation(resp);
      PasswordStep(Finished(pending.(errors := ErrorsAfter(pending.errors, c))), s, SettledAfter(c))
  }

  class ChangePassword {
    var currentPassword: string
    var password: string
    var passwordConfirmation: string
    var errors: Option<ErrorBag>
    var status: string
    var loading: bool

    function State(): PasswordState
      reads this
    {
      PasswordState(PasswordForm(currentPassword, password, passwordConfirmation), errors, status, loading)
    }

    constructor ()
      ensures State() == Initial
    {
      currentPassword, password, passwordConfirmation := "", "", "";
      errors := None;
      status := "";
      loading := false;
    }

    method ResetForm()
      modifies this
      ensures State() == Reset(old(State()))
    {
      currentPassword := "";
      password := "";
      passwordConfirmation := "";
      errors := Some(NoErrors);
      status := "";
    }

    method UpdatePassword(session: Session, resp: Response<()>) returns (settled: Settled)
      modifies this, session
      ensures PasswordStep(State(), session.State(), settled) == Updated(old(State()), old(session.State()), resp)
    {
      loading := true;
      errors := Some(NoErrors);
      status := "";
      var delivered := session.Intercept(resp);
      if delivered.Ok? {
        status := UpdatedStatus;
        settled := Fulfilled;
      } else {
        var c := CatchValidation(delivered);
        if c.SetErrors? {
          errors := Some(c.bag);
        }
        settled := SettledAfter(c);
      }
      currentPassword := "";
      password := "";
      passwordConfirmation := "";
      loading := false;
    }
  }
}
