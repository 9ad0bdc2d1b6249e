/** The profile form store: name and email, the errors of the last update, a
    status message and a loading flag. It has no re-entrancy guard. */
module ProfileStore {
  import opened Common
  import opened Auth
  import Router
  import Http

  datatype ProfileForm = ProfileForm(name: string, email: string)

  /** The `name` and `email` of a profile response body. */
  datatype ProfileData = ProfileData(name: string, email: string)

  /** `errors` is the store's `errors.value`, absent until first assigned. */
  datatype ProfileState = ProfileState(form: ProfileForm, errors: Option<ErrorBag>, status: string, loading: bool)

  datatype ProfileStep = ProfileStep(store: ProfileState, session: SessionState, settled: Settled)

  const Initial := ProfileState(ProfileForm("", ""), None, "", false)

  const UpdatedStatus := "Profile has been updated."

  /** `resetForm()`: empty name and email, errors and status cleared; the
      loading flag is not touched. */
  function Reset(st: ProfileState): (r: ProfileState)
    ensures r.form.name == "" && r.form.email == ""
    ensures r.errors == Some(NoErrors) && r.status == ""
    ensures r.loading == st.loading
  {
    ProfileState(ProfileForm("", ""), Some(NoErrors), "", st.loading)
  }

  /** `fetchProfile()` when the request comes back with `resp`: a success
      fills the form from the body; a failure is not caught, so the promise
      is rejected with it and the store keeps what it had. */
  function Fetched(st: ProfileState, sess: SessionState, resp: Response<ProfileData>): (r: ProfileStep)
    ensures resp.Ok? ==>
              r.store == st.(form := ProfileForm(resp.payload.name, resp.payload.email)) &&
              r.session == sess && r.settled == Fulfilled
    ensures !resp.Ok? ==> r.store == st && r.settled == Rejected(OriginalError)
    ensures resp.HttpError? && resp.status == Http.UnauthorizedStatus ==> r.session == Destroyed(sess, Router.LoginRoute)
    ensures !Http.TerminatesSession(resp) ==> r.session == sess
  {
    var s := AfterResponse(sess, resp);
    if resp.Ok? then
      ProfileStep(st.(form := ProfileForm(resp.payload.name, resp.payload.email)), s, Fulfilled)
    else
      ProfileStep(st, s, Rejected(OriginalError))
  }

  /** The store while the update request is in flight. */
  function InFlight(st: ProfileState): (r: ProfileState)
    ensures r.loading && r.errors == Some(NoErrors) && r.status == ""
    ensures r.form == st.form
  {
    st.(loading := true, errors := Some(NoErrors), status := "")
  }

  /** `updateProfile()` when the request comes back with `resp`. */
  function Updated(st: ProfileState, sess: SessionState, resp: Response<ProfileData>): (r: ProfileStep)
    ensures !r.store.loading
    ensures resp.Ok? ==>
              r.store.form == ProfileForm(resp.payload.name, resp.payload.email) &&
              r.store.status == UpdatedStatus && r.store.errors == Some(NoErrors) &&
              r.session == sess && r.settled == Fulfilled
    ensures !resp.Ok? ==> r.store.form == st.form && r.store.status == ""
    ensures resp.HttpError? && resp.status == UnprocessableStatus ==>
              r.store.errors == Some(resp.errors) && r.session == sess && r.settled == Fulfilled
    ensures resp.HttpError? && resp.status != UnprocessableStatus ==>
              r.store.errors == Some(NoErrors) && r.settled == Fulfilled
    ensures resp.HttpError? && resp.status == Http.UnauthorizedStatus ==>
              r.session == Destroyed(sess, Router.LoginRoute)
    ensures resp.HttpError? && resp.status != Http.UnauthorizedStatus ==> r.session == sess
    ensures resp.NoResponse? ==>
              r.store.errors == Some(NoErrors) && r.session == sess && r.settled == Rejected(TypeErrorInCatch)
  {
    var pending := InFlight(st);
    var s := AfterResponse(sess, resp);
    if resp.Ok? then
      ProfileStep(pending.(form := ProfileForm(resp.payload.name, resp.payload.email),
                           status := UpdatedStatus, loading := false), s, Fulfilled)
    else
      var c := CatchValidation(resp);
      ProfileStep(pending.(errors := ErrorsAfter(pending.errors, c), loading := false), s, SettledAfter(c))
  }

  class Profile {
    var name: string
    var email: string
    var errors: Option<ErrorBag>
    var status: string
    var loading: bool

    function State(): ProfileState
      reads this
    {
      ProfileState(ProfileForm(name, email), errors, status, loading)
    }

    constructor ()
      ensures State() == Initial
    {
      name, email := "", "";
      errors := None;
      status := "";
      loading := false;
    }

    method ResetForm()
      modifies this
      ensures State() == Reset(old(State()))
    {
      name := "";
      email := "";
      errors := Some(NoErrors);
      status := "";
    }

    method FetchProfile(session: Session, resp: Response<ProfileData>) returns (settled: Settled)
      modifies this, session
      ensures ProfileStep(State(), session.State(), settled) == Fetched(old(State()), old(session.State()), resp)
    {
      var delivered := session.Intercept(resp);
      if delivered.Ok? {
        name := delivered.payload.name;
        email := delivered.payload.email;
        settled := Fulfilled;
      } else {
        settled := Rejected(OriginalError);
      }
    }

    method UpdateProfile(session: Session, resp: Response<ProfileData>) returns (settled: Settled)
      modifies this, session
      ensures ProfileStep(State(), session.State(), settled) == Updated(old(State()), old(session.State()), resp)
    {
      loading := true;
      errors := Some(NoErrors);
      status := "";
      var delivered := session.Intercept(resp);
      if delivered.Ok? {
        name := delivered.payload.name;
        email := delivered.payload.email;
        status := UpdatedStatus;
        settled := Fulfilled;
      } else {
        var c := CatchValidation(delivered);
        if c.SetErrors? {
          errors := Some(c.bag);
        }
        settled := SettledAfter(c);
      }
      loading := false;
    }
  }
}
