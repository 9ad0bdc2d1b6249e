/** The start-parking form store: the chosen vehicle and zone (both `null`
    until chosen), the errors of the last attempt and a loading flag that
    keeps a second submission out while one is in flight. */
module ParkingStore {
  import opened Common
  import opened Auth
  import Router
  import Http

  /** Vehicle and zone ids; `None` is `null`. */
  datatype ParkingForm = ParkingForm(vehicleId: Option<int>, zoneId: Option<int>)

  /** `errors` is the store's `errors.value`, absent until first assigned. */
  datatype ParkingState = ParkingState(form: ParkingForm, errors: Option<ErrorBag>, loading: bool)

  datatype ParkingStep = ParkingStep(store: ParkingState, session: SessionState, result: Submission)

  const Initial := ParkingState(ParkingForm(None, None), None, false)

  /** `resetForm()`: no vehicle, no zone, no errors; the loading flag stays. */
  function Reset(st: ParkingState): (r: ParkingState)
    ensures r.form.vehicleId.None? && r.form.zoneId.None?
    ensures r.errors == Some(NoErrors)
    ensures r.loading == st.loading
  {
    ParkingState(ParkingForm(None, None), Some(NoErrors), st.loading)
  }

  /** The store while the request is in flight. */
  function InFlight(st: ParkingState): (r: ParkingState)
    ensures r.loading && r.errors == Some(NoErrors)
    ensures r.form == st.form
  {
    st.(loading := true, errors := Some(NoErrors))
  }

  /** `startParking()` when the request comes back with `resp`. */
  function Started(st: ParkingState, sess: SessionState, resp: Response<()>): (r: ParkingStep)
    ensures st.loading ==> r == ParkingStep(st, sess, Skipped)
    ensures !st.loading ==> r.result.Sent? && !r.store.loading && r.store.form == st.form
    ensures !st.loading && resp.Ok? ==>
              r.session == Pushed(sess, Router.ParkingsActiveRoute) &&
              r.store.errors == Some(NoErrors) && r.result == Sent(Fulfilled)
    ensures !st.loading && resp.HttpError? && resp.status == UnprocessableStatus ==>
              r.store.errors == Some(resp.errors) && r.session == sess && r.result == Sent(Fulfilled)
    ensures !st.loading && resp.HttpError? && resp.status != UnprocessableStatus ==>
              r.store.errors == Some(NoErrors) && r.result == Sent(Fulfilled)
    ensures !st.loading && resp.HttpError? && resp.status == Http.UnauthorizedStatus ==>
              r.session == Destroyed(sess, Router.LoginRoute)
    ensures resp.HttpError? && resp.status != Http.UnauthorizedStatus ==> r.session == sess
    ensures !st.loading && resp.NoResponse? ==>
              r.store.errors == Some(NoErrors) && r.session == sess &&
              r.result == Sent(Rejected(TypeErrorInCatch))
  {
    if st.loading then ParkingStep(st, sess, Skipped)
    else
      var pending := InFlight(st);
      var s := AfterResponse(sess, resp);
      if resp.Ok? then
        ParkingStep(pending.(loading := false), Pushed(s, Router.ParkingsActiveRoute), Sent(Fulfilled))
      else
        var c := CatchValidation(resp);
        ParkingStep(pending.(errors := ErrorsAfter(pending.errors, c), loading := false), s, Sent(SettledAfter(c)))
  }

  class Parking {
    var vehicleId: Option<int>
    var zoneId: Option<int>
    var errors: Option<ErrorBag>
    var loading: bool

    function State(): ParkingState
      reads this
    {
      ParkingState(ParkingForm(vehicleId, zoneId), errors, loading)
    }

    constructor ()
      ensures State() == Initial
    {
      vehicleId, zoneId := None, None;
      errors := None;
      loading := false;
    }

    method ResetForm()
      modifies this
      ensures State() == Reset(old(State()))
    {
      vehicleId := None;
      zoneId := None;
      errors := Some(NoErrors);
    }

    method StartParking(session: Session, resp: Response<()>) returns (result: Submission)
      modifies this, session
      ensures ParkingStep(State(), session.State(), result) == Started(old(State()), old(session.State()), resp)
    {
      if loading {
        return Skipped;
      }
      loading := true;
      errors := Some(NoErrors);
      var delivered := session.Intercept(resp);
      if delivered.Ok? {
        session.Push(Router.ParkingsActiveRoute);
        result := Sent(Fulfilled);
      } else {
        var c := CatchValidation(delivered);
        if c.SetErrors? {
          errors := Some(c.bag);
        }
        result := Sent(SettledAfter(c));
      }
      loading := false;
    }
  }
}
