/** The new-vehicle form store: plate number and description, the errors of
    the last attempt and a loading flag that keeps a second submission out
    while one is in flight. `storeVehicle` does not return its request's
    promise, so its caller learns nothing of how the request settled. */
module VehicleStore {
  import opened Common
  import opened Auth
  import Router
  import Http

  datatype VehicleForm = VehicleForm(plateNumber: string, description: string)

  /** `errors` is the store's `errors.value`, absent until first assigned. */
  datatype VehicleState = VehicleState(form: VehicleForm, errors: Option<ErrorBag>, loading: bool)

  datatype VehicleStep = VehicleStep(store: VehicleState, session: SessionState)

  const Initial := VehicleState(VehicleForm("", ""), None, false)

  /** `resetForm()`: empty plate number and description, no errors; the
      loading flag stays. */
  function Reset(st: VehicleState): (r: VehicleState)
    ensures r.form.plateNumber == "" && r.form.description == ""
    ensures r.errors == Some(NoErrors)
    ensures r.loading == st.loading
  {
    VehicleState(VehicleForm("", ""), Some(NoErrors), st.loading)
  }

  /** The store while the request is in flight. */
  function InFlight(st: VehicleState): (r: VehicleState)
    ensures r.loading && r.errors == Some(NoErrors)
    ensures r.form == st.form
  {
    st.(loading := true, errors := Some(NoErrors))
  }

  /** `storeVehicle()` when the request comes back with `resp`. */
  function Stored(st: VehicleState, sess: SessionState, resp: Response<()>): (r: VehicleStep)
    ensures st.loading ==> r == VehicleStep(st, sess)
    ensures !st.loading ==> !r.store.loading && r.store.form == st.form
    ensures !st.loading && resp.Ok? ==>
              r.session == Pushed(sess, Router.VehiclesIndexRoute) && r.store.errors == Some(NoErrors)
    ensures !st.loading && resp.HttpError? && resp.status == UnprocessableStatus ==>
              r.store.errors == Some(resp.errors) && r.session == sess
    ensures !st.loading && resp.HttpError? && resp.status != UnprocessableStatus ==>
              r.store.errors == Some(NoErrors)
    ensures !st.loading && resp.HttpError? && resp.status == Http.UnauthorizedStatus ==>
              r.session == Destroyed(sess, Router.LoginRoute)
    ensures resp.HttpError? && resp.status != Http.UnauthorizedStatus ==> r.session == sess
    ensures !st.loading && resp.NoResponse? ==>
              r.store.errors == Some(NoErrors) && r.session == sess
  {
    if st.loading then VehicleStep(st, sess)
    else
      var pending := InFlight(st);
      var s := AfterResponse(sess, resp);
      if resp.Ok? then
        VehicleStep(pending.(loading := false), Pushed(s, Router.VehiclesIndexRoute))
      else
        var c := CatchValidation(resp);
        VehicleStep(pending.(errors := ErrorsAfter(pending.errors, c), loading := false), s)
  }

  class Vehicle {
    var plateNumber: string
    var description: string
    var errors: Option<ErrorBag>
    var loading: bool

    function State(): VehicleState
      reads this
    {
      VehicleState(VehicleForm(plateNumber, description), errors, loading)
    }

    constructor ()
      ensures State() == Initial
    {
      plateNumber, description := "", "";
      errors := None;
      loading := false;
    }

    method ResetForm()
      modifies this
      ensures State() == Reset(old(State()))
    {
      plateNumber := "";
      description := "";
      errors := Some(NoErrors);
    }

    method StoreVehicle(session: Session, resp: Response<()>)
      modifies this, session
      ensures VehicleStep(State(), session.State()) == Stored(old(State()), old(session.State()), resp)
    {
      if loading {
        return;
      }
      loading := true;
      errors := Some(NoErrors);
      var delivered := session.Intercept(resp);
      if delivered.Ok? {
        session.Push(Router.VehiclesIndexRoute);
      } else {
        var c := CatchValidation(delivered);
        if c.SetErrors? {
          errors := Some(c.bag);
        }
      }
      loading := false;
    }
  }
}
