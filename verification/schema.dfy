/**
  The parking-session document: the fields a stored record may carry, the
  constraints the document schema puts on them, and validation of a document
  before it is saved.
*/
module ParkingSchema {
  import opened Wrappers

  /** Opaque reference to a staff user document. */
  type UserId = string

  /** The values the `vehicleType` enum admits. */
  const VehicleTypes: set<string> := {"car", "bike", "truck"}

  /** The values the `status` enum admits. */
  datatype Status = Active | Completed

  /** The stored spelling of a status. */
  function StatusName(s: Status): string {
    match s
    case Active => "active"
    case Completed => "completed"
  }

  /** The document paths that carry a validator (required and/or enum). */
  datatype Path = VehicleNumberPath | VehicleTypePath | SpotNumberPath | EntryTimePath | StatusPath | UserIdPath

  const AllPaths: set<Path> :=
    {VehicleNumberPath, VehicleTypePath, SpotNumberPath, EntryTimePath, StatusPath, UserIdPath}

  /**
    A document as handed to the model constructor, before validation: any
    field may be absent. Timestamps are integer milliseconds.
  */
  datatype Draft = Draft(
    vehicleNumber: Option<string>,
    vehicleType: Option<string>,
    spotNumber: Option<int>,
    entryTime: Option<int>,
    exitTime: Option<int>,
    status: Option<string>,
    cost: Option<int>,
    userId: Option<UserId>,
    recordedBy: Option<string>,
    exitRecordedBy: Option<UserId>)

  /**
    A stored parking-session record. The required fields are always present;
    `exitTime`, `cost`, `recordedBy` and `exitRecordedBy` are optional.
    `vehicleType` keeps its stored string so that a record which never went
    through validation can still be represented.
  */
  datatype Session = Session(
    vehicleNumber: string,
    vehicleType: string,
    spotNumber: int,
    entryTime: int,
    exitTime: Option<int>,
    status: Status,
    cost: Option<int>,
    userId: UserId,
    recordedBy: Option<string>,
    exitRecordedBy: Option<UserId>)

  /** A required string path is satisfied only by a present, non-empty string. */
  predicate PresentString(o: Option<string>) {
    o.Some? && |o.value| > 0
  }

  /** The status a draft stores: absent means the schema default `active`. */
  function ParseStatus(o: Option<string>): Option<Status> {
    match o
    case None => Some(Active)
    case Some(name) =>
      if name == "active" then Some(Active)
      else if name == "completed" then Some(Completed)
      else None
  }

  /** Whether the validators on path `p` accept draft `d`. */
  predicate Satisfies(d: Draft, p: Path) {
    match p
    case VehicleNumberPath => PresentString(d.vehicleNumber)
    case VehicleTypePath => d.vehicleType.Some? && d.vehicleType.value in VehicleTypes
    case SpotNumberPath => d.spotNumber.Some?
    case EntryTimePath => d.entryTime.Some?
    case StatusPath => ParseStatus(d.status).Some?
    case UserIdPath => d.userId.Some?
  }

  /** The schema's constraints on a stored record. */
  predicate SchemaValid(s: Session) {
    |s.vehicleNumber| > 0 && s.vehicleType in VehicleTypes
  }

  /** The document a stored record corresponds to, every field written out. */
  function ToDraft(s: Session): Draft {
    Draft(Some(s.vehicleNumber), Some(s.vehicleType), Some(s.spotNumber), Some(s.entryTime),
          s.exitTime, Some(StatusName(s.status)), s.cost, Some(s.userId), s.recordedBy,
          s.exitRecordedBy)
  }

  /**
    Validation on save: either every validator passes and the draft becomes a
    record (with the `status` default applied), or the save fails and reports
    exactly the paths whose validators rejected it.
  */
  function Validate(d: Draft): (r: Result<Session, set<Path>>)
    ensures r.Success? <==> forall p :: Satisfies(d, p)
    ensures r.Failure? ==> r.error != {} && forall p :: p in r.error <==> !Satisfies(d, p)
    ensures r.Success? ==> SchemaValid(r.value)
    ensures r.Success? ==> ToDraft(r.value) == d.(status := Some(StatusName(r.value.status)))
    ensures r.Success? && d.status.None? ==> r.value.status == Active
  {
    var errs := set p | p in AllPaths && !Satisfies(d, p);
    AllPathsListed();
    if errs != {} then
      Failure(errs)
    else
      assert forall p | p in AllPaths :: p !in errs;
      var st := ParseStatus(d.status).value;
      assert d.status.Some? ==> d.status.value == StatusName(st);
      Success(Session(d.vehicleNumber.value, d.vehicleType.value, d.spotNumber.value,
                      d.entryTime.value, d.exitTime, st, d.cost, d.userId.value,
                      d.recordedBy, d.exitRecordedBy))
  }

  /** `AllPaths` lists every path. */
  lemma AllPathsListed()
    ensures forall p :: p in AllPaths
  {
    forall p ensures p in AllPaths {
      match p
      case VehicleNumberPath =>
      case VehicleTypePath =>
      case SpotNumberPath =>
      case EntryTimePath =>
      case StatusPath =>
      case UserIdPath =>
    }
  }

  /** Saving a valid record's own document gives back that record. */
  lemma ValidateRoundTrip(s: Session)
    requires SchemaValid(s)
    ensures Validate(ToDraft(s)) == Success(s)
  {
  }

  /** An `active` record without `exitTime` and `cost` is a valid document. */
  lemma OptionalFieldsMayBeAbsent(s: Session)
    requires SchemaValid(s) && s.status == Active
    ensures Validate(ToDraft(s).(exitTime := None, cost := None, status := None)).Success?
  {
  }
}
