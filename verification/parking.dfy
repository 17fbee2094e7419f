/**
  The parking routes: recording an entry, recording an exit, and the
  read-only views of the ledger (active sessions, history, lookup by
  vehicle). Each handler is a pure transition: on success it returns the new
  ledger, on failure only the error, so a failed request leaves the ledger as
  it was.
*/
module ParkingRoutes {
  import opened Wrappers
  import opened ParkingSchema
  import opened Ledger
  import Tariff

  /** The authenticated staff user making the request. */
  datatype Actor = Actor(userId: UserId, name: Option<string>)

  /** The body of an entry request; each field may be missing. */
  datatype EntryRequest = EntryRequest(
    vehicleNumber: Option<string>,
    vehicleType: Option<string>,
    entryTime: Option<int>)

  /**
    The body of an exit request, with `exitTime` already read as
    milliseconds; the vehicle number may be missing.
  */
  datatype ExitRequest = ExitRequest(vehicleNumber: Option<string>, exitTime: int)

  /** The ways a handler answers with an error. */
  datatype Error =
    | AlreadyParked                 // 400: the vehicle has an active session
    | NoActiveParking               // 404: the vehicle has no active session
    | ExitNotAfterEntry             // 400: exit time not after entry time
    | SaveFailed(paths: set<Path>)  // 500: the document failed validation on save

  /** The answer to a successful entry. */
  datatype Entered = Entered(ledger: Ledger, session: Session)

  /** The answer to a successful exit: the completed record plus the cost and exact duration. */
  datatype Exited = Exited(ledger: Ledger, session: Session, cost: int, durationHours: real)

  /** The range the entry handler draws a spot number from. */
  const MinSpot: int := 1
  const MaxSpot: int := 100

  /**
    Records the entry of a vehicle. A vehicle that already has an active
    session is turned away; otherwise a new active document is built and
    saved, and the save rejects a missing or empty vehicle number and a
    vehicle type outside the enum. `spot` is the randomly drawn spot number
    and `now` the clock reading used when the request gives no entry time.
  */
  function RecordEntry(l: Ledger, req: EntryRequest, actor: Actor, now: int, spot: int)
    : (r: Result<Entered, Error>)
    requires MinSpot <= spot <= MaxSpot
    ensures r == Failure(AlreadyParked) <==>
      req.vehicleNumber.Some? && HasActive(l, req.vehicleNumber.value)
    ensures r.Success? <==>
      && !(req.vehicleNumber.Some? && HasActive(l, req.vehicleNumber.value))
      && PresentString(req.vehicleNumber)
      && req.vehicleType.Some? && req.vehicleType.value in VehicleTypes
    ensures r.Failure? ==> r.error == AlreadyParked || r.error.SaveFailed?
    ensures r.Failure? && r.error.SaveFailed? ==>
      && (VehicleNumberPath in r.error.paths <==> !PresentString(req.vehicleNumber))
      && (VehicleTypePath in r.error.paths <==>
            !(req.vehicleType.Some? && req.vehicleType.value in VehicleTypes))
      && r.error.paths <= {VehicleNumberPath, VehicleTypePath}
    ensures r.Success? ==>
      && r.value.ledger == l + [r.value.session]
      && r.value.session.status == Active
      && r.value.session.vehicleNumber == req.vehicleNumber.value
      && r.value.session.vehicleType == req.vehicleType.value
      && r.value.session.spotNumber == spot
      && MinSpot <= r.value.session.spotNumber <= MaxSpot
      && r.value.session.entryTime == req.entryTime.GetOr(now)
      && r.value.session.exitTime.None? && r.value.session.cost.None?
      && r.value.session.userId == actor.userId
      && r.value.session.recordedBy == actor.name
      && r.value.session.exitRecordedBy.None?
      && WellShaped(r.value.session)
  {
    if req.vehicleNumber.Some? && HasActive(l, req.vehicleNumber.value) then
      Failure(AlreadyParked)
    else
      var draft := Draft(req.vehicleNumber, req.vehicleType, Some(spot),
                         Some(req.entryTime.GetOr(now)), None, Some("active"), None,
                         Some(actor.userId), actor.name, None);
      match Validate(draft)
      case Failure(paths) => Failure(SaveFailed(paths))
      case Success(s) => Success(Entered(l + [s], s))
  }

  /**
    The record an exit request addresses: the active session of the given
    vehicle. A missing vehicle number matches no stored record, since every
    stored record has a non-empty number.
  */
  function ExitMatch(l: Ledger, req: ExitRequest): Option<nat> {
    match req.vehicleNumber
    case None => None
    case Some(v) => FindActive(l, v)
  }

  /**
    Records the exit of a vehicle: finds its active session, refuses an exit
    time that is not after the entry time, charges the tariff for the exact
    duration and saves the session as completed. Only `exitTime`, `status`
    and `cost` change; `exitRecordedBy` is not set and the duration is not
    stored.
  */
  function RecordExit(l: Ledger, req: ExitRequest): (r: Result<Exited, Error>)
    ensures r == Failure(NoActiveParking) <==>
      req.vehicleNumber.None? || !HasActive(l, req.vehicleNumber.value)
    ensures r == Failure(ExitNotAfterEntry) <==>
      ExitMatch(l, req).Some? && req.exitTime <= l[ExitMatch(l, req).value].entryTime
    ensures (r.Failure? && r.error.SaveFailed?) <==>
      && ExitMatch(l, req).Some?
      && req.exitTime > l[ExitMatch(l, req).value].entryTime
      && !SchemaValid(l[ExitMatch(l, req).value])
    ensures r.Success? ==>
      && ExitMatch(l, req).Some?
      && var i := ExitMatch(l, req).value;
      && ActiveFor(l[i], req.vehicleNumber.value)
      && req.exitTime > l[i].entryTime
      && r.value.ledger == l[i := r.value.session]
      && r.value.session == l[i].(exitTime := Some(req.exitTime), status := Completed,
                                   cost := Some(r.value.cost))
      && r.value.durationHours == Tariff.DurationHours(req.exitTime - l[i].entryTime)
      && r.value.cost == Tariff.CeilReal(r.value.durationHours *
                                         Tariff.HourlyRate(l[i].vehicleType) as real)
      && r.value.cost >= 1
  {
    match ExitMatch(l, req)
    case None => Failure(NoActiveParking)
    case Some(i) =>
      var rec := l[i];
      if req.exitTime <= rec.entryTime then
        Failure(ExitNotAfterEntry)
      else
        var durationMs := req.exitTime - rec.entryTime;
        var cost := Tariff.ExitCost(rec.vehicleType, durationMs);
        var updated := rec.(exitTime := Some(req.exitTime), status := Completed, cost := Some(cost));
        match Validate(ToDraft(updated))
        case Failure(paths) => Failure(SaveFailed(paths))
        case Success(saved) =>
          Success(Exited(l[i := saved], saved, cost, Tariff.DurationHours(durationMs)))
  }

  /** The answer to the active-sessions query. */
  datatype ActiveView = ActiveView(activeCount: nat, activeParking: seq<Session>)

  /** Every active session, most recent entry first, with their number. */
  function ListActive(l: Ledger): (r: ActiveView)
    ensures r.activeCount == |r.activeParking|
    ensures forall x :: multiset(r.activeParking)[x] == if x.status == Active then multiset(l)[x] else 0
    ensures SortedDesc(r.activeParking, EntryTime)
  {
    var sessions := SortDesc(WithStatus(l, Active), EntryTime);
    ActiveView(|sessions|, sessions)
  }

  /** Every completed session, most recent exit first. */
  function History(l: Ledger): (r: seq<Session>)
    ensures forall x :: multiset(r)[x] == if x.status == Completed then multiset(l)[x] else 0
    ensures SortedDesc(r, ExitTime)
  {
    SortDesc(WithStatus(l, Completed), ExitTime)
  }

  /** The active session of a vehicle, or NotFound. */
  function FindVehicle(l: Ledger, v: string): (r: Result<Session, Error>)
    ensures r.Success? <==> HasActive(l, v)
    ensures r.Failure? ==> r.error == NoActiveParking
    ensures r.Success? ==> r.value in l && ActiveFor(r.value, v)
    ensures r.Success? && Consistent(l) ==> forall s | s in l && ActiveFor(s, v) :: s == r.value
  {
    match FindActive(l, v)
    case None => Failure(NoActiveParking)
    case Some(i) =>
      ActiveIsUnique(l, v, i);
      Success(l[i])
  }
}
