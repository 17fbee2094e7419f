/**
  The session ledger: the stored collection of parking-session records in
  insertion order, the invariants the handlers keep on it, and the
  filter-and-sort it is read through.
*/
module Ledger {
  import opened Wrappers
  import opened ParkingSchema
  import Tariff

  /** All stored sessions, active and completed, oldest insert first. */
  type Ledger = seq<Session>

  /** `s` is the active session of vehicle `v`. */
  predicate ActiveFor(s: Session, v: string) {
    s.status == Active && s.vehicleNumber == v
  }

  /** Some stored session is the active session of vehicle `v`. */
  predicate HasActive(l: Ledger, v: string) {
    exists i :: 0 <= i < |l| && ActiveFor(l[i], v)
  }

  /**
    The position of the first active session of `v` in insertion order, if
    any: the record the `findOne({vehicleNumber, status: 'active'})` lookup
    stands for.
  */
  function FindActive(l: Ledger, v: string): (r: Option<nat>)
    ensures r.None? <==> !HasActive(l, v)
    ensures r.Some? ==> r.value < |l| && ActiveFor(l[r.value], v)
    ensures r.Some? ==> forall j :: 0 <= j < r.value ==> !ActiveFor(l[j], v)
  {
    if |l| == 0 then None
    else if ActiveFor(l[0], v) then Some(0)
    else
      match FindActive(l[1..], v)
      case None =>
        assert forall j :: 1 <= j < |l| ==> l[j] == l[1..][j - 1];
        None
      case Some(i) =>
        assert forall j :: 1 <= j < |l| ==> l[j] == l[1..][j - 1];
        Some(i + 1)
  }

  /** At most one active session per vehicle number. */
  predicate UniqueActive(l: Ledger) {
    forall i, j | 0 <= i < j < |l| ::
      !(l[i].status == Active && l[j].status == Active && l[i].vehicleNumber == l[j].vehicleNumber)
  }

  /**
    The shape a record has at each point of its lifecycle: valid for the
    schema; while active, no exit time and no cost; once completed, an exit
    time after the entry time and the tariff's cost for that stay.
  */
  predicate WellShaped(s: Session) {
    && SchemaValid(s)
    && match s.status
       case Active => s.exitTime.None? && s.cost.None?
       case Completed =>
         && s.exitTime.Some?
         && s.exitTime.value > s.entryTime
         && s.cost == Some(Tariff.ExitCost(s.vehicleType, s.exitTime.value - s.entryTime))
  }

  /** The ledger invariant the entry and exit handlers preserve. */
  predicate Consistent(l: Ledger) {
    && (forall i | 0 <= i < |l| :: WellShaped(l[i]))
    && UniqueActive(l)
  }

  /** Under the invariant, an active session of `v` is the only one. */
  lemma ActiveIsUnique(l: Ledger, v: string, i: nat)
    requires i < |l| && ActiveFor(l[i], v)
    ensures Consistent(l) ==> forall j :: 0 <= j < |l| && ActiveFor(l[j], v) ==> j == i
  {
  }

  /** The sessions with status `st`, in ledger order (a `find({status})` query). */
  function WithStatus(l: Ledger, st: Status): (r: seq<Session>)
    ensures forall x :: multiset(r)[x] == if x.status == st then multiset(l)[x] else 0
    ensures forall x :: x in r <==> x in l && x.status == st
  {
    if |l| == 0 then []
    else
      var rest := WithStatus(l[1..], st);
      assert l == [l[0]] + l[1..];
      assert multiset(l) == multiset{l[0]} + multiset(l[1..]);
      if l[0].status == st then [l[0]] + rest else rest
  }

  /** The document field a query sorts on. */
  datatype SortField = EntryTime | ExitTime

  /** The value of `f` in `s`; a missing exit time has no value. */
  function Key(s: Session, f: SortField): Option<int> {
    match f
    case EntryTime => Some(s.entryTime)
    case ExitTime => s.exitTime
  }

  /**
    `a` may come before `b` in a descending sort: a larger value first, and
    a missing value after every present one.
  */
  predicate NotBelow(a: Option<int>, b: Option<int>) {
    match b
    case None => true
    case Some(y) => a.Some? && a.value >= y
  }

  /** `s` is in descending order of field `f`. */
  predicate SortedDesc(s: seq<Session>, f: SortField) {
    forall i, j | 0 <= i < j < |s| :: NotBelow(Key(s[i], f), Key(s[j], f))
  }

  /** Places `x` into a list sorted in descending order of `f`. */
  function Insert(x: Session, s: seq<Session>, f: SortField): (r: seq<Session>)
    requires SortedDesc(s, f)
    ensures multiset(r) == multiset(s) + multiset{x}
    ensures SortedDesc(r, f)
  {
    if |s| == 0 then [x]
    else if NotBelow(Key(x, f), Key(s[0], f)) then
      assert forall j | 0 <= j < |s| :: NotBelow(Key(s[0], f), Key(s[j], f));
      [x] + s
    else
      var rest := Insert(x, s[1..], f);
      assert s == [s[0]] + s[1..];
      assert forall y | y in multiset(rest) :: NotBelow(Key(s[0], f), Key(y, f)) by {
        forall y | y in multiset(rest) ensures NotBelow(Key(s[0], f), Key(y, f)) {
          if y != x {
            assert y in multiset(s[1..]);
            var j :| 0 <= j < |s[1..]| && s[1..][j] == y;
            assert s[j + 1] == y;
          }
        }
      }
      assert forall j | 0 <= j < |rest| :: rest[j] in multiset(rest);
      [s[0]] + rest
  }

  /** Sorts in descending order of field `f` (the order `sort({f: -1})` yields). */
  function SortDesc(s: seq<Session>, f: SortField): (r: seq<Session>)
    ensures multiset(r) == multiset(s)
    ensures SortedDesc(r, f)
  {
    if |s| == 0 then []
    else
      assert s == [s[0]] + s[1..];
      Insert(s[0], SortDesc(s[1..], f), f)
  }
}
