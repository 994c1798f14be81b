# Parking service — Dafny model

A model of the parking-lot service of a small NestJS backend
(`src/parking/parking.service.ts`). The service records vehicle entries,
prices them, lists and searches them, updates or deletes one entry, and sums
the revenue. The model has three parts:

- **Fee rule** (`hitungTotal`). Only `roda2` and `roda4` are priced. `roda2` costs 3000 for the
  first hour plus 2000 for each further hour. `roda4` costs 6000 plus 4000. Anything
  else, including a missing type or a duration below 1, costs 0.
- **Category mappers** (`mapJenisToEnum`, `enumToSimpleJenis`). They translate
  between the request form `roda2`/`roda4` and the stored form `RODA2`/`RODA4`,
  ignoring case, and return None for anything else.
- **The service over a record store.** The database is replaced by an in-memory
  store: a class `ParkingService` with a `map<int, Record>` of rows and the next id
  to assign. Each method is proved against that state. The methods are `Create`,
  `FindOne`, `Update`, `Remove`, `FindAll` (filters, ascending id order, offset
  pagination) and `TotalPendapatan` (sum of fees).

The store invariant `Valid()` says four things about every row. It is stored under its own id,
below the next id. Its category is `RODA2` or `RODA4`. Its `total` agrees with the fee rule
applied to its own category and duration. Every mutating method keeps this invariant.

Files: `outcomes.dfy` (Option), `text.dfy` (ASCII case mapping, substring test),
`rules.dfy` (mappers and fee rule), `records.dfy` (the row, request shapes and the
specification functions for listing and revenue), `service.dfy` (the store
class), `scenarios.dfy` (a client that derives these example runs from the contracts: a `roda4`
entry of 2 hours costs 10000 and, updated to 5 hours, 22000 with its plate
untouched; revenue over fees 3000 and 22000 is 25000; a second delete, or a lookup
of a deleted id, is NotFound).

Behaviour of the service worth noting:

- On `create`, the stored category is the mapped value. Only the fee
  calculation falls back to the raw request string (lines 50-59). With the
  create DTO's constraints the mapping always succeeds, so the fallback is never used.
- `update` stores whatever duration it is given, including 0 or a negative
  value (fee 0), so a stored row may have a duration below 1.
- `update` rewrites `total` on every call, whichever fields were supplied.
- A plate is written on update only when it is a non-empty string (line 124).
- The mappers return `undefined` (None) for any input they do not recognise.

## Model

| member | source | states |
|---|---|---|
| Text.ToLowerEqualsIff | src/parking/parking.service.ts:15-17 | lower-casing a string yields a lower-case word exactly when the string spells that word in any mix of cases |
| Text.ToUpperEqualsIff | src/parking/parking.service.ts:24-26 | upper-casing a string yields the upper-cased word exactly when the string spells that word in any mix of cases |
| Text.ContainsIff | src/parking/parking.service.ts:78-80 | the plate filter's containment test holds exactly when the search text occurs at some offset of the plate |
| ParkingRules.MapJenisToEnum | src/parking/parking.service.ts:12-19 | the result is None, `RODA2` or `RODA4`; never anything else |
| ParkingRules.EnumToSimpleJenis | src/parking/parking.service.ts:22-28 | the result is None, `roda2` or `roda4`; never anything else |
| ParkingRules.MapJenisToEnumExactly | src/parking/parking.service.ts:12-19 | `mapJenisToEnum` gives `RODA2` exactly for case-insensitive `roda2`, `RODA4` exactly for case-insensitive `roda4`, and None for every other string |
| ParkingRules.EnumToSimpleJenisExactly | src/parking/parking.service.ts:22-28 | `enumToSimpleJenis` gives `roda2`/`roda4` exactly for case-insensitive spellings of those words, so it accepts exactly the strings `mapJenisToEnum` accepts |
| ParkingRules.SimpleRoundTrip | src/parking/parking.service.ts:12-28 | a request-form category that maps comes back through `enumToSimpleJenis` as its lower-cased self |
| ParkingRules.EnumRoundTrip | src/parking/parking.service.ts:12-28 | `RODA2` and `RODA4` map to request form and back to themselves |
| ParkingRules.SimpleJenisRoundTrip | src/parking/parking.service.ts:50-58 | `roda2`/`roda4` map to `RODA2`/`RODA4`, and the form passed to the fee rule on create is the request string itself |
| ParkingRules.HitungTotal | src/parking/parking.service.ts:32-46 | the fee is never negative, and it is positive exactly when the type is `roda2` or `roda4` and the duration is present and at least 1 |
| ParkingRules.FeeFormula | src/parking/parking.service.ts:35-43 | for d ≥ 1 the fee is 3000 + (d−1)·2000 for `roda2` and 6000 + (d−1)·4000 for `roda4`; the d = 1 branch agrees |
| ParkingRules.FeeStrictlyIncreasing | src/parking/parking.service.ts:35-43 | for a priced type the fee strictly increases with the duration |
| ParkingRules.FeeZero | src/parking/parking.service.ts:32-46 | the fee is 0 for a missing or unpriced type and for a missing duration or one below 1 |
| ParkingRecords.Apply | src/parking/parking.service.ts:138-141 | writing an update payload never changes id or entry time, always sets the fee, writes each supplied field with the payload's value and leaves every field the payload omits as it was |
| ParkingRecords.UpdatedAsUnique | src/parking/parking.service.ts:103-136 | the update rule determines the updated row completely: no field is left unspecified |
| ParkingRecords.WhereOf | src/parking/parking.service.ts:76-85 | a plate filter exists exactly when the search is non-empty; the category filter is the mapped category, absent when it does not map |
| ParkingRecords.MatchingInSpec | src/parking/parking.service.ts:87-92 | the listing holds only stored rows that match the filters and lie in the id range, in strictly ascending id order, and misses none of them |
| ParkingRecords.Window | src/parking/parking.service.ts:89-90 | a page holds at most `take` rows, holds exactly as many as remain after the skip when fewer, and its i-th row is the (skip+i)-th match |
| ParkingRecords.Offset | src/parking/parking.service.ts:89 | the first page, or a limit of 0, skips nothing |
| ParkingRecords.OffsetNextPage | src/parking/parking.service.ts:89 | each page starts where the page before it ends |
| ParkingRecords.SumTotalsRemove | src/parking/parking.service.ts:151-157 | the revenue sum splits at any row: that row's fee plus the sum over the others |
| ParkingRecords.SumTotalsAdd | src/parking/parking.service.ts:151-157 | adding a row adds its fee to the revenue |
| ParkingRecords.SumTotalsReplace | src/parking/parking.service.ts:151-157 | replacing a row swaps its old fee for its new one in the revenue |
| ParkingRecords.SumTotalsBelowStep | src/parking/parking.service.ts:151-157 | extending the id bound by one adds that id's fee, if the id is stored |
| ParkingStore.ParkingService.Create | src/parking/parking.service.ts:49-69 | adds exactly one row under a fresh id and leaves the others unchanged; the row has the given plate and duration, entry time `now`, no exit time, the stored form of the category and the fee for that category and duration; revenue grows by that fee |
| ParkingStore.ParkingService.FindOne | src/parking/parking.service.ts:96-99 | returns the row stored under the id, or NotFound when there is none |
| ParkingStore.ParkingService.Update | src/parking/parking.service.ts:103-141 | NotFound leaves the store unchanged; otherwise only that row changes, to the merge of the supplied plate/category/duration/exit time over the old row, with id and entry time kept and the fee recomputed from the resulting category and duration |
| ParkingStore.ParkingService.Remove | src/parking/parking.service.ts:145-148 | NotFound leaves the store unchanged; otherwise exactly that id is deleted, its row is returned and revenue drops by its fee |
| ParkingStore.ParkingService.FindAll | src/parking/parking.service.ts:73-92 | with page defaulting to 1 and limit to 10, returns the page at offset (page−1)·limit, at most limit long, of the matching rows in ascending id order |
| ParkingStore.ParkingService.TotalPendapatan | src/parking/parking.service.ts:151-157 | returns the sum of the fees of all stored rows (the number the service wraps as `total_pendapatan`): 0 for an empty store, never negative |

## Left out

- HTTP routing and the `+id` string-to-number conversion (`parking.controller.ts`), and dependency-injection wiring (`parking.module.ts`): plumbing with no logic of its own.
- ParkingStore.ParkingService.Create: the create DTO's validation is a precondition (`jenis_kendaraan` is `roda2` or `roda4`, `durasi` is an integer ≥ 1). Input that the validation rejects never reaches the service. The store's behaviour when a category does not map is therefore not modelled.
- The database client is replaced by an in-memory map with an id counter that starts at 1 and is never reused. Its query language, its transactions and the case sensitivity of its `contains` filter are not modelled. The plate filter is an exact, case-sensitive substring test.
- ParkingStore.ParkingService.FindAll: requires page ≥ 1 and limit ≥ 0. What the database client does with a negative skip or take is not modelled.
- The clock: the creation instant is the parameter `now`. Timestamps are opaque integers that the model never inspects.
- `async`/`await` and concurrent requests: operations run one at a time, each atomically.
- JavaScript coercion: `Number(...)` on arbitrary values, `typeof` checks on non-strings, `NaN`, `null` durations. Durations, page and limit are integers, and optional fields are `Option`. A supplied `exit_time` of `null` is `Some(None)`.
- Case mapping covers the ASCII letters only. JavaScript's full Unicode `toLowerCase`/`toUpperCase` is not modelled.
- The update DTO is not part of this model, so `Update` has no precondition on its body.
