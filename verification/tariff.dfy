/**
  The tariff: the hourly rate per vehicle type and the cost of a stay,
  rounded up to a whole currency unit. The exit handler uses an inline rate
  switch; a rate-card helper computes the same thing from a lookup object.
*/
module Tariff {

  /** Milliseconds in one hour (`1000 * 60 * 60`). */
  const MsPerHour: int := 3_600_000

  /** The rate card the helper looks vehicle types up in. */
  const RateCard: map<string, int> := map["car" := 20, "bike" := 10, "truck" := 30]

  /** The smallest whole number not below `x` (JavaScript's `Math.ceil` on exact values). */
  function CeilReal(x: real): (c: int)
    ensures (c - 1) as real < x <= c as real
  {
    -((-x).Floor)
  }

  /** Exact ceiling of `a / b` on integers. */
  function CeilDiv(a: int, b: int): (q: int)
    requires b > 0
    ensures (q - 1) * b < a <= q * b
  {
    var k := (-a) / b;
    assert b * k <= -a < b * k + b;
    -k
  }

  /** The length of a stay in hours, kept exact (no truncation). */
  function DurationHours(durationMs: int): real {
    durationMs as real / MsPerHour as real
  }

  /** The hourly rate the exit handler's `switch` picks; unknown types pay the car rate. */
  function HourlyRate(vehicleType: string): (rate: int)
    ensures rate > 0
    ensures vehicleType in RateCard ==> rate == RateCard[vehicleType]
    ensures vehicleType !in RateCard ==> rate == RateCard["car"]
  {
    if vehicleType == "car" then 20
    else if vehicleType == "bike" then 10
    else if vehicleType == "truck" then 30
    else 20
  }

  /**
    The cost the exit handler charges for a stay of `durationMs` milliseconds:
    the duration in hours times the rate, rounded up once at the end. It is
    computed on integers; it equals the exact real ceiling.
  */
  function ExitCost(vehicleType: string, durationMs: int): (cost: int)
    ensures cost == CeilReal(DurationHours(durationMs) * HourlyRate(vehicleType) as real)
    ensures durationMs > 0 ==> cost >= 1
  {
    var rate := HourlyRate(vehicleType);
    var cost := CeilDiv(durationMs * rate, MsPerHour);
    CeilDivIsRealCeiling(durationMs, rate, cost);
    cost
  }

  /** The integer ceiling of `ms * rate / MsPerHour` is the ceiling of the exact product in hours. */
  lemma CeilDivIsRealCeiling(ms: int, rate: int, q: int)
    requires (q - 1) * MsPerHour < ms * rate <= q * MsPerHour
    ensures q == CeilReal(DurationHours(ms) * rate as real)
  {
  }

  /** A longer stay never costs less, and every stay of positive length costs at least one unit. */
  lemma CostMonotone(vehicleType: string, ms1: int, ms2: int)
    requires 0 < ms1 <= ms2
    ensures 1 <= ExitCost(vehicleType, ms1) <= ExitCost(vehicleType, ms2)
  {
  }

  /** JavaScript values a property lookup on the rate-card object can yield. */
  datatype JsValue = Undefined | Num(n: int) | FunctionValue | ObjectValue

  /** The result of `Math.ceil(durationInHours * rate)`: a whole number or NaN. */
  datatype JsNumber = Whole(n: int) | NaN

  /**
    Property names every object literal inherits from `Object.prototype`
    whose values are functions.
  */
  const InheritedFunctionKeys: set<string> :=
    {"constructor", "hasOwnProperty", "isPrototypeOf", "propertyIsEnumerable",
     "toLocaleString", "toString", "valueOf",
     "__defineGetter__", "__defineSetter__", "__lookupGetter__", "__lookupSetter__"}

  /** Every name a lookup on the rate-card object finds without it being one of its own rates. */
  const InheritedKeys: set<string> := InheritedFunctionKeys + {"__proto__"}

  /** `rates[key]` on the rate-card object literal, inherited members included. */
  function RatesProperty(key: string): JsValue {
    if key in RateCard then Num(RateCard[key])
    else if key == "__proto__" then ObjectValue
    else if key in InheritedFunctionKeys then FunctionValue
    else Undefined
  }

  /** JavaScript truthiness of a looked-up value. */
  predicate Truthy(v: JsValue) {
    match v
    case Undefined => false
    case Num(n) => n != 0
    case FunctionValue => true
    case ObjectValue => true
  }

  /**
    The rate-card helper as written: `rates[vehicleType] || rates.car`. A
    vehicle type that names an inherited member of the object finds a function
    or object, which is truthy, so the fallback is skipped and the product is NaN.
  */
  function CalculateParkingCostAsWritten(durationHours: real, vehicleType: string): (r: JsNumber)
    ensures r.NaN? <==> vehicleType in InheritedKeys
    ensures r.Whole? ==> r.n == CeilReal(durationHours * HourlyRate(vehicleType) as real)
  {
    var found := RatesProperty(vehicleType);
    var rate := if Truthy(found) then found else Num(RateCard["car"]);
    match rate
    case Num(n) => Whole(CeilReal(durationHours * n as real))
    case _ => NaN
  }

  /** The helper's own wording exhibits the discrepancy: a one-hour stay typed "toString". */
  lemma HelperDivergesOnInheritedKey()
    ensures CalculateParkingCostAsWritten(1.0, "toString") == NaN
    ensures ExitCost("toString", MsPerHour) == 20
  {
  }

  /**
    The rate-card helper with the lookup restricted to the card's own entries,
    as its fallback comment intends: unknown types pay the car rate.
  */
  function CalculateParkingCost(durationHours: real, vehicleType: string): (cost: int)
    ensures cost == CeilReal(durationHours * HourlyRate(vehicleType) as real)
  {
    var rate := if vehicleType in RateCard then RateCard[vehicleType] else RateCard["car"];
    CeilReal(durationHours * rate as real)
  }

  /** The exit handler's switch and the rate-card helper charge the same for every stay and type. */
  lemma SwitchAgreesWithHelper(vehicleType: string, durationMs: int)
    ensures ExitCost(vehicleType, durationMs) == CalculateParkingCost(DurationHours(durationMs), vehicleType)
    ensures vehicleType !in InheritedKeys ==>
      CalculateParkingCostAsWritten(DurationHours(durationMs), vehicleType)
        == Whole(ExitCost(vehicleType, durationMs))
  {
  }

  /** Two and a half hours of car parking cost 50 units. */
  lemma CarTwoAndAHalfHours()
    ensures DurationHours(9_000_000) == 2.5
    ensures ExitCost("car", 9_000_000) == 50
  {
  }
}
