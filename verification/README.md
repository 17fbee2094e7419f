# Parking-session lifecycle, modelled in Dafny

This project models the core of a parking-facility back end. A **ledger** of
parking-session records is changed by two handlers. **Entry** opens an
`active` session for a vehicle. **Exit** closes that session: it becomes
`completed` and is charged by the hourly **tariff**. Read-only queries list
the active sessions, list the history of completed sessions, look up a
vehicle, and build a **summary** with revenue and counts.

Everything is pure. A handler takes the ledger and the request and returns a
`Result`. On success it holds the new ledger; on failure it holds only the
error, so the caller keeps the old ledger.

- `wrappers.dfy`: module `Wrappers`, with `Option` and `Result`.
- `schema.dfy`: module `ParkingSchema`, for the session document (`models/Parking.js`). A `Draft` is the document before saving, and any of its fields may be missing. `Validate` does what saving does: it applies the `required` and `enum` validators and the `status` default, then returns either a `Session` or the set of paths that failed.
- `tariff.dfy`: module `Tariff`. It holds the rate switch used by the exit handler and the rate-card helper `calculateParkingCost`, both as written and corrected. Costs are rounded up with an exact ceiling.
- `ledger.dfy`: module `Ledger`. It defines the ledger (`seq<Session>`), the lookup for a vehicle's active session, the filter by status and the descending sort, and the invariant `Consistent`.
- `parking.dfy`: module `ParkingRoutes`, for `routes/parking.js`. It holds `RecordEntry`, `RecordExit`, `ListActive`, `History` and `FindVehicle`.
- `lifecycle.dfy`: module `Lifecycle`. It holds properties that span several requests: both handlers preserve the invariant, a second entry or exit fails, and over any run of requests a record can only go from active to completed.
- `reports.dfy`: module `Reports`, for the `/summary` aggregate (`routes/reports.js`).

Representation:
- Timestamps are integer milliseconds.
- A stay's duration is returned as an exact `real` number of hours.
- Cost is the exact ceiling of hours × rate. It is computed with integer ceiling division, and `Tariff.ExitCost` proves that this equals the real ceiling.
- The random spot number is a parameter in [1, 100].
- The clock reading used when no entry time is given is a parameter `now`.
- The feedback count is a parameter of the summary.

In these points the model follows the code as written:
- An entry whose vehicle type is not in the enum is refused. That happens when the document fails validation on save, and the handler's catch turns it into a 500 response (`SaveFailed`), not a 400 validation error.
- The exit handler does not record who registered the exit (`exitRecordedBy` stays unset).
- The exit handler does not persist the duration, because the schema has no such field. The duration is only part of the exit's answer.
- The read, the check and the save are separate steps. The save is one unconditional update of that record, and nothing is retried.

## Model

| member | source | states |
|---|---|---|
| ParkingSchema.Validate | models/Parking.js:3-47 | A document saves if and only if every validator passes: vehicleNumber present and non-empty, vehicleType one of car/bike/truck, spotNumber, entryTime and userId present, status absent or one of active/completed. A failed save names exactly the failing paths. A saved record is schema-valid, keeps every field of the document, and gets status `active` when none was given. |
| ParkingSchema.ValidateRoundTrip | models/Parking.js:3-47 | Saving the document of any schema-valid record gives back that same record (validation and document form are inverse on valid records). |
| ParkingSchema.OptionalFieldsMayBeAbsent | models/Parking.js:21-32 | An active record with no exitTime, no cost and no explicit status is still a valid document. |
| Tariff.HourlyRate | routes/parking.js:90-103 | The exit switch's rate is positive. It equals the rate card's entry for car, bike and truck, and the car rate for every other type. |
| Tariff.ExitCost | routes/parking.js:87-105 | The exit cost equals the exact ceiling of (duration in hours × hourly rate), and it is at least 1 for every stay of positive length. |
| Tariff.CeilDivIsRealCeiling | routes/parking.js:87-105 | Integer ceiling division of ms × rate by 3,600,000 is the same number as the real-valued ceiling of hours × rate. |
| Tariff.CostMonotone | routes/parking.js:82-105 | For positive durations, cost is at least 1 and never decreases as the stay grows longer. |
| Tariff.CalculateParkingCostAsWritten | routes/parking.js:129-139 | As written, the rate-card helper gives NaN exactly when the vehicle type names an inherited `Object.prototype` member. Otherwise it gives the switch's cost. |
| Tariff.HelperDivergesOnInheritedKey | routes/parking.js:137-138 | For a one-hour stay of type "toString", the helper as written gives NaN, while the switch charges 20. |
| Tariff.CalculateParkingCost | routes/parking.js:129-139 | The corrected helper (own entries only, car rate otherwise) charges the ceiling of hours × the switch's rate for every type. |
| Tariff.SwitchAgreesWithHelper | routes/parking.js:90-139 | For every type and duration, the inline switch and the corrected helper charge the same. The helper as written agrees too, except on inherited member names. |
| Tariff.CarTwoAndAHalfHours | routes/parking.js:87-105 | A car stay of 9,000,000 ms lasts 2.5 hours and costs 50. |
| Ledger.FindActive | routes/parking.js:68-75 | The lookup finds nothing exactly when the vehicle has no active session. Otherwise it returns the position of the first active session of that vehicle. |
| Ledger.ActiveIsUnique | routes/parking.js:33-42 | On a consistent ledger, a vehicle's active session sits at only one position. |
| Ledger.WithStatus | routes/parking.js:11-13 | The status filter keeps exactly the records with that status, each with its multiplicity in the ledger. |
| Ledger.SortDesc | routes/parking.js:13 | The sort returns a permutation of its input, in descending order of the chosen field. A missing exit time sorts last. |
| ParkingRoutes.RecordEntry | routes/parking.js:27-60 | An entry fails with AlreadyParked exactly when the vehicle already has an active session. It succeeds exactly when there is no such session, the number is non-empty and the type is car, bike or truck. Every other failure is SaveFailed, naming exactly the vehicleNumber path (number missing or empty) and/or the vehicleType path (type missing or outside the enum). On success exactly one record is appended: active, with the given vehicle, the drawn spot in [1,100], the given entry time or else `now`, no exit time or cost, and the acting user. |
| ParkingRoutes.RecordExit | routes/parking.js:62-126 | Exit fails with NoActiveParking exactly when the vehicle number is missing or the vehicle has no active session. It fails with ExitNotAfterEntry exactly when the exit time is not after that session's entry time. On success only that record changes: exitTime set, status completed, cost = ceil(hours × rate) ≥ 1. Every other record is untouched, and the returned duration is (exit − entry) / 3,600,000 hours. |
| ParkingRoutes.ListActive | routes/parking.js:6-25 | The active view holds exactly the active records, sorted by entry time descending, and its count is their number. |
| ParkingRoutes.History | routes/parking.js:142-159 | The history holds exactly the completed records, sorted by exit time descending. |
| ParkingRoutes.FindVehicle | routes/parking.js:162-182 | Lookup by vehicle succeeds exactly when the vehicle has an active session and then returns that session. On a consistent ledger it is the only one. Failure is NotFound. |
| Lifecycle.EntryPreservesConsistency | routes/parking.js:33-54 | A successful entry keeps "at most one active session per vehicle" and keeps every record well shaped. |
| Lifecycle.ExitPreservesConsistency | routes/parking.js:68-113 | A successful exit keeps the invariant. The completed record has an exit time after its entry time and the tariff's cost for that stay. |
| Lifecycle.ExitOnConsistentLedger | routes/parking.js:68-113 | On a consistent ledger, saving an exit never fails. Exit succeeds exactly when the vehicle has an active session that started before the exit time. |
| Lifecycle.SecondExitFails | routes/parking.js:68-75 | After a successful exit on a consistent ledger, an immediate second exit for the same vehicle fails with NoActiveParking. |
| Lifecycle.SecondEntryFails | routes/parking.js:33-42 | After a successful entry, a second entry for the same vehicle fails with AlreadyParked. |
| Lifecycle.Apply | routes/parking.js:27-126 | One request (entry or exit) only appends records or completes active ones, preserves the invariant, and grows the ledger only on an entry. |
| Lifecycle.Run | routes/parking.js:27-126 | Any sequence of requests only appends records or moves them from active to completed, and it preserves the invariant. |
| Lifecycle.CompletedIsTerminal | routes/parking.js:108-111 | Whatever requests follow, a completed record never changes again. |
| Lifecycle.ReachableIsConsistent | routes/parking.js:27-126 | Every ledger reached from the empty ledger satisfies the invariant. |
| Reports.SumCostOfCompleted | routes/reports.js:11-14 | Summing cost over the records that match `completed` gives the ledger's revenue. |
| Reports.RevenuePipeline | routes/reports.js:11-14 | The aggregation yields no group exactly when no record is completed. Otherwise it yields one group whose total is the ledger's revenue. |
| Reports.NoCompletedNoRevenue | routes/reports.js:20 | Without completed records, revenue is 0. |
| Reports.Summarize | routes/reports.js:8-28 | totalRevenue is the sum of cost over completed records (0 when there are none), totalParkings counts every record whatever its status, and totalFeedbacks is the given count. |
| Reports.RevenueAppend | routes/reports.js:11-14 | Appending a record adds its contribution to revenue (its cost if completed, otherwise nothing). |
| Reports.RevenueUpdate | routes/reports.js:11-14 | Replacing one record changes revenue by the difference of the old and new contributions. |
| Reports.EntryEffectOnSummary | routes/reports.js:12-15 | A successful entry leaves totalRevenue unchanged and raises totalParkings by 1. |
| Reports.ExitEffectOnSummary | routes/reports.js:12-15 | A successful exit raises totalRevenue by exactly that session's cost and leaves totalParkings unchanged. |

## Findings

| source | as written | input that shows it | evidently intended | confidence | as-written member | corrected member |
|---|---|---|---|---|---|---|
| routes/parking.js:137 | `rates[vehicleType] \|\| rates.car` also finds members inherited from `Object.prototype`. Those are truthy functions or objects, so the fallback is skipped and `durationInHours * rate` is NaN. | `calculateParkingCost(1, "toString")` gives NaN, where the switch charges 20 | an unknown type pays the car rate, as the fallback comment says and as the inline switch does | not executed; high (follows from JavaScript property lookup) | Tariff.CalculateParkingCostAsWritten | Tariff.CalculateParkingCost |

## Left out

- HTTP, routing, authentication middleware and bearer tokens are left out. The acting user is the `Actor` parameter.
- Response shaping is left out, except for the error kind. The HTTP status of each `Error` is given in a comment.
- Logging is left out.
- The `.populate('userId', 'name')` join in the history query is left out. `ParkingRoutes.History` returns the records without the user's display name.
- Storage failures other than a validation failure on save are left out: a lost connection, a cast failure, or a thrown error that becomes a 500 response.
- `createdAt` and `updatedAt` (the schema's `timestamps` option) are left out, because no handler reads them.
- Concurrent requests are left out, including the check-then-act races in entry and exit. Requests are handled one at a time (`Lifecycle.Run`).
- `Math.random` is left out. The spot number is a parameter, and `RecordEntry` requires it to lie in [1, 100], which is the range `Math.floor(Math.random() * 100) + 1` produces.
- Parsing of request dates is left out. Times are integer milliseconds. An absent or unparsable `exitTime`, which becomes an Invalid Date and fails at save, is not modelled.
- The entry's `entryTime || new Date()` is modelled as `Option`: `None` stands for an absent or falsy entry time.
- A missing vehicle number is read as matching no stored record, because every stored record has a non-empty number. In the entry's duplicate check the save then fails on the required path. In the exit's lookup the answer is NoActiveParking.
- Ledger.FindActive: returns the first active match in insertion order. An unsorted `findOne` returns the first match in the store's natural order, which is not guaranteed to be insertion order. The two can differ only when one vehicle has two active sessions, which concurrent entries can produce.
- Library type casting is left out. Mongoose `Number` fields (spotNumber, cost) are integers here, and the `ObjectId` cast of `userId` is not modelled.
- The schema rules used here are those of the document library: a required string must be non-empty, and saving an existing record validates its required paths, including the `vehicleType` enum.
- Mongo's order among records with equal sort keys is unspecified. `ListActive` and `History` promise only a permutation in descending order, and the model picks one tie order.
- Tariff.ExitCost: computed with exact arithmetic, not IEEE doubles. `Math.ceil((ms / 3600000) * rate)` on doubles can round differently at exact boundaries.
- The feedback routes, user registration and login, and server start-up are left out. They are plain storage and library calls, and the feedback count enters the summary only as a number.
