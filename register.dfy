/** The registration form store: name, email, password and its
    confirmation, and the errors of the last attempt. It has no loading flag,
    and a successful registration does not log the user in. */
module RegisterStore {
  import opened Common
  import opened Auth
  import Router
  import Http

  datatype RegisterForm = RegisterForm(name: string, email: string, password: string, passwordConfirmation: string)

  /** `errors` is the store's `errors.value`, absent until first assigned. */
  datatype RegisterState = RegisterState(form: RegisterForm, errors: Option<ErrorBag>)

  datatype RegisterStep = RegisterStep(store: RegisterState, session: SessionState, settled: Settled)

  const Initial := RegisterState(RegisterForm("", "", "", ""), None)

  /** `resetForm()`: all four fields empty, no errors. */
  function Reset(st: RegisterState): (r: RegisterState)
    ensures r.form.name == "" && r.form.email == "" && r.form.password == "" && r.form.passwordConfirmation == ""
    ensures r.errors == Some(NoErrors)
  {
    RegisterState(RegisterForm("", "", "", ""), Some(NoErrors))
  }

  /** The `finally` handler: both password fields cleared. */
  function Finished(st: RegisterState): RegisterState {
    st.(form := st.form.(password := "", passwordConfirmation := ""))
  }

  /** `handleSubmit()` when the registration request comes back with `resp`.
      A success only logs the response body. */
  function Submitted(st: RegisterState, sess: SessionState, resp: Response<()>): (r: RegisterStep)
    ensures r.store.form.password == "" && r.store.form.passwordConfirmation == ""
    ensures r.store.form.name == st.form.name && r.store.form.email == st.form.email
    ensures resp.Ok? ==> r.session == sess && r.store.errors == Some(NoErrors) && r.settled == Fulfilled
    ensures resp.HttpError? && resp.status == UnprocessableStatus ==>
              r.store.errors == Some(resp.errors) && r.session == sess && r.settled == Fulfilled
    ensures resp.HttpError? && resp.status != UnprocessableStatus ==>
              r.store.errors == Some(NoErrors) && r.settled == Fulfilled
    ensures resp.HttpError? && resp.status == Http.UnauthorizedStatus ==>
              r.session == Destroyed(sess, Router.LoginRoute)
    ensures resp.HttpError? && resp.status != Http.UnauthorizedStatus ==> r.session == sess
    ensures resp.NoResponse? ==>
              r.store.errors == Some(NoErrors) && r.session == sess &&
              r.settled == Rejected(TypeErrorInCatch)
  {
    var pending := st.(errors := Some(NoErrors));
    var s := AfterResponse(sess, resp);
    if resp.Ok? then
      RegisterStep(Finished(pending), s, Fulfilled)
    else
      var c := CatchValidation(resp);
      RegisterStep(Finished(pending.(errors := ErrorsAfter(pending.errors, c))), s, SettledAfter(c))
  }

  class Register {
    var name: string
    var email: string
    var password: string
    var passwordConfirmation: string
    var errors: Option<ErrorBag>

    function State(): RegisterState
      reads this
    {
      RegisterState(RegisterForm(name, email, password, passwordConfirmation), errors)
    }

    constructor ()
      ensures State() == Initial
    {
      name, email, password, passwordConfirmation := "", "", "", "";
      errors := None;
    }

    method ResetForm()
      modifies this
      ensures State() == Reset(old(State()))
    {
      name := "";
      email := "";
      password := "";
      passwordConfirmation := "";
      errors := Some(NoErrors);
    }

    method HandleSubmit(session: Session, resp: Response<()>) returns (settled: Settled)
      modifies this, session
      ensures RegisterStep(State(), session.State(), settled) == Submitted(old(State()), old(session.State()), resp)
    {
      errors := Some(NoErrors);
      var delivered := session.Intercept(resp);
      if delivered.Ok? {
        settled := Fulfilled;
      } else {
        var c := CatchValidation(delivered);
        if c.SetErrors? {
          errors := Some(c.bag);
        }
        settled := SettledAfter(c);
      }
      password := "";
      passwordConfirmation := "";
    }
  }
}
