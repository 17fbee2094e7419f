/**
  The session lifecycle across requests: what entry and exit do to the ledger
  invariant, why a vehicle cannot be parked twice or leave twice, and that
  over any sequence of requests the only change to a stored record is the
  single step from active to completed.
*/
module Lifecycle {
  import opened Wrappers
  import opened ParkingSchema
  import opened Ledger
  import opened ParkingRoutes
  import Tariff

  /** A successful entry keeps every record well shaped and the active sessions unique. */
  lemma EntryPreservesConsistency(l: Ledger, req: EntryRequest, actor: Actor, now: int, spot: int)
    requires MinSpot <= spot <= MaxSpot
    requires RecordEntry(l, req, actor, now, spot).Success?
    ensures Consistent(l) ==> Consistent(RecordEntry(l, req, actor, now, spot).value.ledger)
  {
  }

  /** A successful exit keeps every record well shaped and the active sessions unique. */
  lemma ExitPreservesConsistency(l: Ledger, req: ExitRequest)
    requires RecordExit(l, req).Success?
    ensures Consistent(l) ==> Consistent(RecordExit(l, req).value.ledger)
  {
  }

  /**
    On a consistent ledger the save after an exit never fails: the exit
    succeeds exactly when the vehicle has an active session that began
    before the requested exit time.
  */
  lemma ExitOnConsistentLedger(l: Ledger, req: ExitRequest)
    requires Consistent(l)
    ensures RecordExit(l, req).Success? <==>
      req.vehicleNumber.Some? &&
      exists i :: 0 <= i < |l| && ActiveFor(l[i], req.vehicleNumber.value) && req.exitTime > l[i].entryTime
  {
  }

  /** Once a vehicle has left, an immediate second exit for it finds nothing. */
  lemma SecondExitFails(l: Ledger, req: ExitRequest, again: ExitRequest)
    requires Consistent(l)
    requires RecordExit(l, req).Success?
    requires again.vehicleNumber == req.vehicleNumber
    ensures RecordExit(RecordExit(l, req).value.ledger, again) == Failure(NoActiveParking)
  {
  }

  /** Once a vehicle has entered, a second entry for it is refused. */
  lemma SecondEntryFails(l: Ledger, req: EntryRequest, actor: Actor, now: int, spot: int,
                         again: EntryRequest, actor': Actor, now': int, spot': int)
    requires MinSpot <= spot <= MaxSpot && MinSpot <= spot' <= MaxSpot
    requires RecordEntry(l, req, actor, now, spot).Success?
    requires again.vehicleNumber == req.vehicleNumber
    ensures RecordEntry(RecordEntry(l, req, actor, now, spot).value.ledger, again, actor', now', spot')
            == Failure(AlreadyParked)
  {
    var l' := RecordEntry(l, req, actor, now, spot).value.ledger;
    assert ActiveFor(l'[|l|], req.vehicleNumber.value);
  }

  /**
    `b` is `a` after its exit was recorded: `a` was active, `b` is completed,
    and nothing but the exit time, the status and the cost differs.
  */
  predicate Completes(a: Session, b: Session) {
    && a.status == Active
    && b.status == Completed
    && b == a.(exitTime := b.exitTime, status := Completed, cost := b.cost)
  }

  /**
    `l'` is a later state of `l`: records are only appended, and each stored
    record is either unchanged or has completed.
  */
  predicate Evolves(l: Ledger, l': Ledger) {
    && |l| <= |l'|
    && forall i | 0 <= i < |l| :: l'[i] == l[i] || Completes(l[i], l'[i])
  }

  /** A later state of a later state is a later state. */
  lemma EvolvesTransitive(l1: Ledger, l2: Ledger, l3: Ledger)
    requires Evolves(l1, l2) && Evolves(l2, l3)
    ensures Evolves(l1, l3)
  {
  }

  /** A request to the parking routes. */
  datatype Request =
    | Enter(req: EntryRequest, actor: Actor, now: int, spot: int)
    | Leave(exit: ExitRequest)

  /** The spot numbers drawn for entry requests lie in the handler's range. */
  predicate SpotInRange(q: Request) {
    q.Enter? ==> MinSpot <= q.spot <= MaxSpot
  }

  /** The ledger after one request: the new ledger on success, the old one on failure. */
  function Apply(l: Ledger, q: Request): (l': Ledger)
    requires SpotInRange(q)
    ensures Evolves(l, l')
    ensures Consistent(l) ==> Consistent(l')
    ensures |l'| == |l| || (q.Enter? && |l'| == |l| + 1)
  {
    match q
    case Enter(req, actor, now, spot) =>
      var r := RecordEntry(l, req, actor, now, spot);
      if r.Failure? then l
      else
        EntryPreservesConsistency(l, req, actor, now, spot);
        r.value.ledger
    case Leave(req) =>
      var r := RecordExit(l, req);
      if r.Failure? then l
      else
        ExitPreservesConsistency(l, req);
        r.value.ledger
  }

  /** The ledger after a sequence of requests, handled one at a time. */
  function Run(l: Ledger, qs: seq<Request>): (l': Ledger)
    requires forall k | 0 <= k < |qs| :: SpotInRange(qs[k])
    ensures Evolves(l, l')
    ensures Consistent(l) ==> Consistent(l')
    decreases |qs|
  {
    if |qs| == 0 then l
    else
      var l1 := Apply(l, qs[0]);
      var l2 := Run(l1, qs[1..]);
      EvolvesTransitive(l, l1, l2);
      l2
  }

  /** Whatever requests follow, a completed record never changes again. */
  lemma CompletedIsTerminal(l: Ledger, qs: seq<Request>, i: nat)
    requires forall k | 0 <= k < |qs| :: SpotInRange(qs[k])
    requires i < |l| && l[i].status == Completed
    ensures Run(l, qs)[i] == l[i]
  {
  }

  /** Every ledger reachable from the empty one satisfies the invariant. */
  lemma ReachableIsConsistent(qs: seq<Request>)
    requires forall k | 0 <= k < |qs| :: SpotInRange(qs[k])
    ensures Consistent(Run([], qs))
  {
  }
}
