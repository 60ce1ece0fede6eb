# TripGo core, modelled in Dafny

TripGo is a bus-ticketing system: a Spring back end and a React web client. This project models the parts of TripGo that compute or change state step by step. Every operation listed under "## Model" is verified against its contract.

- **Segment availability and fares** (`SeatAvailabilityService`):
  - A route is an ordered list of segments, and each stop name is resolved to a segment index.
  - The fare and its tax are summed over the covered segments.
  - Each segment's fare is looked up among the rows of the fare table. A segment with no row, or with several rows for the seat type, fails the search.
  - Each seat is marked available or not by a half-open interval-overlap test against the booked spans.
  - Two quirks of the code are kept:
    - the stop lookup looks only at each segment's `fromStop`, so a route's terminus never resolves;
    - the overlap test never compares seat numbers.
- **Seat locks** (`SeatLockService`): a table of short-lived holds keyed by (schedule, seat number).
  - Its unique constraint means a second row on a key fails, even when the existing row has expired.
  - `lockSeats` checks and inserts seat by seat. It is not atomic: a failure keeps the rows inserted before it.
- **Route administration** (`RouteService`):
  - the seq number given to a new segment;
  - the distance sum;
  - the fare-plus-GST total;
  - the three ownership checks;
  - the soft delete of schedules;
  - the order of deletes in `deleteRoute`.
  The tables are kept consistent (foreign keys, and seqs `1..n` per route) by every operation.
- **Trip search** (`SearchController`): stop-name normalisation, re-basing a schedule onto the searched day, and the per-schedule mapping of `search`.
- **Seat layouts**. There are three of them:
  - the back end's templates `SLEEPER_2X1` and `SEATER_2X2` (`BusLayoutService`);
  - the deck split of `getSeats` (`BusLayoutController`);
  - the operator's preview page (`generateSeats` and `toggleSeat` in `BusSeatLayout.jsx`).
- **Token lifecycles**:
  - refresh tokens, which are revoked on every new sign-in and deleted by "revoke all"; the revocation `validateRefreshToken` saves for an expired token is undone by the rollback that its own exception triggers, so validation never changes the table;
  - e-mail verification tokens and password reset tokens, which are single-use and share one class.
- **Sign-up and sign-in rules**:
  - the Google sign-in handler (name split, find-or-create of the account);
  - the server's `RegisterRequest` constraints;
  - the client's two sign-up forms (`DesktopForm`, `DesktopOperatorForm`): field checks and server-error mapping.

How the source is represented:
- Repositories are `seq`s or `map`s held in class fields.
- The clock (`now`, in milliseconds) and generated ids and token values are parameters. Freshness of generated values is a precondition.
- `BigDecimal` amounts are `real`.
- A thrown `RuntimeException` is an `Err` carrying the source's message.
- A dereference of a missing association (a route or bus without an operator) is `Err("java.lang.NullPointerException")`.

Modules:
- `Wrappers` (Option/Result) and `Text` (Java and JavaScript string helpers);
- `Entities`;
- `SeatAvailability`, `SeatLocking`, `RouteAdmin`, `TripSearch`, `BusLayout`, `SeatLayoutPage`, `Tokens`, `OAuthLogin`, `Registration` and `SignupForms`.

Where the code and the design description disagree, the model follows the code. There are two such cases:
- The design describes a fallback that resolves a destination through the segments' `toStop`. The code (`indexOf`) matches only `fromStop`, and that is what `SeatAvailability.StopIndex` models.
- The design says a seat is available when no booking *on it* overlaps. The code tests every booking of the schedule whatever its seat, and `SeatAvailability.AllSeatsShareOneFlag` states the consequence.

## Model


| member | source | states |
|---|---|---|
| SeatAvailability.StopIndex | backend/src/main/java/com/tripgo/backend/service/impl/SeatAvailabilityService.java:70-75 | the first index whose `fromStop` equals the stop ignoring case, or -1 exactly when no segment's `fromStop` does; `toStop` is never consulted |
| SeatAvailability.IndexOf | backend/src/main/java/com/tripgo/backend/service/impl/SeatAvailabilityService.java:70-75 | the early-return loop computes exactly `StopIndex` |
| SeatAvailability.SearchAvailability | backend/src/main/java/com/tripgo/backend/service/impl/SeatAvailabilityService.java:24-68 | "Invalid stop selection" when either stop is unresolved or the end is not after the start; otherwise the first covered segment without exactly one fare for the seat type fails the search with its lookup's exception ("Fare not defined" for none, the finder's non-unique-result exception for several); otherwise base = sum of base fares, gst = sum of per-leg taxes, total = base + gst, and the availability list |
| SeatAvailability.FareLookup | backend/src/main/java/com/tripgo/backend/service/impl/SeatAvailabilityService.java:40-41 | a fare found matches the segment id and seat type; any failure is "Fare not defined" or the non-unique-result exception |
| SeatAvailability.MatchingIsTheMatchingRows | backend/src/main/java/com/tripgo/backend/repository/FareRepository.java:17-17 | the finder's matches are rows of the table, and every row with that segment id and seat type is among them |
| SeatAvailability.FoundFareIsARow | backend/src/main/java/com/tripgo/backend/service/impl/SeatAvailabilityService.java:40-41 | a fare found is a row of the fare table |
| SeatAvailability.FareMissingIffNoRow | backend/src/main/java/com/tripgo/backend/service/impl/SeatAvailabilityService.java:40-41 | "Fare not defined" exactly when no row has that segment id and seat type |
| SeatAvailability.DuplicateFareIsNotUnique | backend/src/main/java/com/tripgo/backend/repository/FareRepository.java:17-17 | two rows for one segment id and seat type make the `Optional` finder throw, whatever they hold |
| SeatAvailability.UniqueFareIsFound | backend/src/main/java/com/tripgo/backend/service/impl/SeatAvailabilityService.java:40-41 | a row that is the only match for its segment id and seat type is the fare found |
| SeatAvailability.FirstUnpriced | backend/src/main/java/com/tripgo/backend/service/impl/SeatAvailabilityService.java:39-42 | the first segment of the span whose lookup fails, or the end of the span; every segment before it is priced, and it is the end exactly when the whole span is priced |
| SeatAvailability.FirstUnpricedIs | backend/src/main/java/com/tripgo/backend/service/impl/SeatAvailabilityService.java:39-42 | a failing segment preceded only by priced ones is the first unpriced one, where the loop throws |
| SeatAvailability.TotalIsSumOfLegTotals | backend/src/main/java/com/tripgo/backend/service/impl/SeatAvailabilityService.java:39-51 | base sum plus tax sum equals the sum of the per-leg totals (base + tax of each leg) |
| SeatAvailability.LegTotalSplitLast | backend/src/main/java/com/tripgo/backend/service/impl/SeatAvailabilityService.java:39-47 | the per-leg total sum splits off its last leg |
| SeatAvailability.BaseSumSplit | backend/src/main/java/com/tripgo/backend/service/impl/SeatAvailabilityService.java:39-47 | the base fare of a span is the base fare of its two parts at any intermediate stop |
| SeatAvailability.AvailabilityEntries | backend/src/main/java/com/tripgo/backend/service/impl/SeatAvailabilityService.java:54-65 | one entry per seat, in seat order, carrying the seat's number; available iff no booking's resolved span overlaps `[start, end)` |
| SeatAvailability.AllSeatsShareOneFlag | backend/src/main/java/com/tripgo/backend/service/impl/SeatAvailabilityService.java:57-62 | because seat numbers are never compared, every entry carries the same flag |
| SeatAvailability.TouchingSpansDoNotBlock | backend/src/main/java/com/tripgo/backend/service/impl/SeatAvailabilityService.java:58-62 | a booking whose span only touches the requested one does not block it |
| SeatAvailability.UnresolvedEndNeverBlocks | backend/src/main/java/com/tripgo/backend/service/impl/SeatAvailabilityService.java:58-62 | a booking whose destination does not resolve (the terminus) never blocks a valid span |
| SeatAvailability.TerminusCannotBeResolved | backend/src/main/java/com/tripgo/backend/service/impl/SeatAvailabilityService.java:28-33 | on route A-B-C-D the terminus D (any case) resolves to -1, so a search B to D is an invalid stop selection |
| SeatAvailability.OverlappingBookingBlocks | backend/src/main/java/com/tripgo/backend/service/impl/SeatAvailabilityService.java:58-62 | on route A-B-C-D, a booking "A" to "C" blocks the search span A to C (indices 0 to 2), and a booking "a" to "c" blocks the span B to C (indices 1 to 2): stop names are matched ignoring case |
| SeatAvailability.TwoLegFareExample | backend/src/main/java/com/tripgo/backend/service/impl/SeatAvailabilityService.java:39-51 | two legs at base 100 and 5% tax give base 200 and tax 10 |
| SeatLocking.SeatLockService.constructor | backend/src/main/java/com/tripgo/backend/model/entities/SeatLock.java:13-16 | the lock table starts empty, keyed by (schedule, seat number) |
| SeatLocking.SeatLockService.FindLock | backend/src/main/java/com/tripgo/backend/service/impl/SeatLockService.java:31-33 | the row on the key if there is one, and `None` exactly when there is none |
| SeatLocking.SeatLockService.Insert | backend/src/main/java/com/tripgo/backend/model/entities/SeatLock.java:13-16 | an insert succeeds iff the key has no row, expired or not, and then adds exactly that row; otherwise the table is unchanged |
| SeatLocking.SeatLockService.LockSeats | backend/src/main/java/com/tripgo/backend/service/impl/SeatLockService.java:24-52 | the new table and the answer are those of `LockAll` with expiry now + 15 minutes |
| SeatLocking.SeatLockService.Release | backend/src/main/java/com/tripgo/backend/service/impl/SeatLockService.java:54-61 | the table loses exactly the rows carrying the token |
| SeatLocking.SeatLockService.CleanupExpired | backend/src/main/java/com/tripgo/backend/service/impl/SeatLockService.java:63-66 | the table loses exactly the rows whose expiry is at or before now |
| SeatLocking.LockAllKeepsExistingRows | backend/src/main/java/com/tripgo/backend/service/impl/SeatLockService.java:29-49 | no row present before the call is changed or removed, on success or failure |
| SeatLocking.LockAllAddsOnlyRequestedSeats | backend/src/main/java/com/tripgo/backend/service/impl/SeatLockService.java:40-48 | every added row is for a requested seat of the schedule and carries the token, the caller, the expiry and `now` |
| SeatLocking.LockAllSucceedsIffAllFree | backend/src/main/java/com/tripgo/backend/service/impl/SeatLockService.java:29-51 | the call returns the token iff no requested seat has a row and no seat is requested twice |
| SeatLocking.LockAllSuccessLocksEverySeat | backend/src/main/java/com/tripgo/backend/service/impl/SeatLockService.java:40-51 | on success every requested seat holds the new lock: token, caller, expiry now + duration |
| SeatLocking.LockAllTokenRowsAreTheBatch | backend/src/main/java/com/tripgo/backend/service/impl/SeatLockService.java:26-51 | with a fresh token, the rows carrying it after success are exactly the requested seats |
| SeatLocking.FailureKeepsEarlierLocks | backend/src/main/java/com/tripgo/backend/service/impl/SeatLockService.java:29-38 | when the k-th seat is actively locked the call fails with "Seat n is locked"; the table afterwards holds exactly the old rows, unchanged, plus the new lock on each seat before the k-th, so nothing is inserted for the k-th seat or later |
| SeatLocking.DuplicateSeatFails | backend/src/main/java/com/tripgo/backend/service/impl/SeatLockService.java:29-47 | listing a free seat twice fails at the second occurrence, leaving the first lock in place |
| SeatLocking.ExpiredUnreapedSeatFailsAtStore | backend/src/main/java/com/tripgo/backend/model/entities/SeatLock.java:13-16 | an expired, unreaped row is not an active lock, yet locking its seat fails at the store with the unique violation |
| SeatLocking.ReapedSeatCanBeLocked | backend/src/main/java/com/tripgo/backend/service/impl/SeatLockService.java:63-66 | after cleanup the same seat can be locked |
| SeatLocking.SequentialMutualExclusion | backend/src/main/java/com/tripgo/backend/service/impl/SeatLockService.java:31-38 | after one call locks a seat, a later call before expiry that starts with that seat fails and leaves the table exactly as the first call left it |
| SeatLocking.ReleaseRemovesExactlyTheToken | backend/src/main/java/com/tripgo/backend/service/impl/SeatLockService.java:54-61 | a row survives release iff its token differs, and survives unchanged; an unknown token is a no-op |
| SeatLocking.ReleaseIdempotent | backend/src/main/java/com/tripgo/backend/service/impl/SeatLockService.java:54-61 | releasing twice equals releasing once |
| SeatLocking.ReapingPreservesActiveLocks | backend/src/main/java/com/tripgo/backend/service/impl/SeatLockService.java:63-66 | cleanup never changes which seats count as locked at that instant, and leaves no expired row |
| RouteAdmin.OwnershipChecksAdmitExactlyTheOwner | backend/src/main/java/com/tripgo/backend/service/impl/RouteService.java:54-61 | the checks of `recomputeDistance`, `listSegments` and `getSchedule`/`deleteSchedule`/`deleteRoute` each pass iff the caller's operator owns the route, with each check's own message |
| RouteAdmin.RouteSegments | backend/src/main/java/com/tripgo/backend/service/impl/RouteService.java:80-84 | the segments of the route, drawn from the table |
| RouteAdmin.RouteSegmentsAppend | backend/src/main/java/com/tripgo/backend/service/impl/RouteService.java:86-95 | appending a segment extends its route's list by it and leaves the other routes' lists unchanged |
| RouteAdmin.MaxSeq | backend/src/main/java/com/tripgo/backend/service/impl/RouteService.java:80-84 | 0 on no segments, otherwise a seq of the list bounding every seq in it |
| RouteAdmin.MaxSeqOfNumbered | backend/src/main/java/com/tripgo/backend/service/impl/RouteService.java:80-84 | under the `1..n` numbering the largest seq is the number of segments |
| RouteAdmin.FindSegment | backend/src/main/java/com/tripgo/backend/service/impl/RouteService.java:115-117 | a segment with the id exactly when one exists |
| RouteAdmin.SchedulesNotOf | backend/src/main/java/com/tripgo/backend/service/impl/RouteService.java:308-309 | exactly the schedules of the other routes, unchanged |
| RouteAdmin.FaresNotOf | backend/src/main/java/com/tripgo/backend/service/impl/RouteService.java:309-309 | exactly the fares of other routes remain: each remaining fare is from the table and of another route, and every fare of another route remains |
| RouteAdmin.SegmentsNotOf | backend/src/main/java/com/tripgo/backend/service/impl/RouteService.java:312-313 | only segments of other routes remain, each drawn from the table |
| RouteAdmin.SegmentsNotOfKeepsIds | backend/src/main/java/com/tripgo/backend/service/impl/RouteService.java:312-313 | a segment id of another route survives the delete |
| RouteAdmin.RouteSegmentsAfterDelete | backend/src/main/java/com/tripgo/backend/service/impl/RouteService.java:312-313 | deleting a route's segments empties its list and leaves every other route's list as it was |
| RouteAdmin.DeleteRouteKeepsConsistent | backend/src/main/java/com/tripgo/backend/service/impl/RouteService.java:308-313 | after removing the route's schedules and fares the tables are consistent, and also after removing its segments and the route when no fare references them |
| RouteAdmin.AddSegmentKeepsConsistent | backend/src/main/java/com/tripgo/backend/service/impl/RouteService.java:86-95 | appending the route's next-numbered segment keeps the tables consistent |
| RouteAdmin.RouteService.constructor | backend/src/main/java/com/tripgo/backend/service/impl/RouteService.java:31-52 | empty route, segment, fare and schedule tables over the given buses, consistent |
| RouteAdmin.RouteService.CreateRoute | backend/src/main/java/com/tripgo/backend/service/impl/RouteService.java:31-52 | a caller without an operator is refused and nothing changes; otherwise the new route is owned by the caller's operator and only the route table changes |
| RouteAdmin.RouteService.RecomputeDistance | backend/src/main/java/com/tripgo/backend/service/impl/RouteService.java:54-73 | unknown route or non-owner is refused unchanged; otherwise the route's distance becomes, and the call returns, the sum of its segment distances |
| RouteAdmin.RouteService.AddSegment | backend/src/main/java/com/tripgo/backend/service/impl/RouteService.java:76-105 | unknown route is refused; otherwise the segment is appended with seq = its route's segment count + 1 (one past the largest seq) and the tables stay consistent |
| RouteAdmin.RouteService.AddFare | backend/src/main/java/com/tripgo/backend/service/impl/RouteService.java:108-138 | "Route not found" or "Segment not found" before anything is stored; otherwise the fare is stored and the answer echoes the request with total = base + base * gst / 100 |
| RouteAdmin.RouteService.CreateSchedule | backend/src/main/java/com/tripgo/backend/service/impl/RouteService.java:140-173 | unknown route or bus is refused unchanged; otherwise the stored and returned schedule is active |
| RouteAdmin.RouteService.ListSegments | backend/src/main/java/com/tripgo/backend/service/impl/RouteService.java:192-210 | only the owner gets the list, which is exactly all of the route's segments in table order, numbered 1, 2, ...; any other caller gets the message of the `listSegments` check |
| RouteAdmin.RouteService.GetSchedule | backend/src/main/java/com/tripgo/backend/service/impl/RouteService.java:239-263 | the schedule, for the owner of its route only; any other caller gets the access check's message ("Access denied" or the null-dereference exception) |
| RouteAdmin.RouteService.ListRoutes | backend/src/main/java/com/tripgo/backend/service/impl/RouteService.java:175-190 | refused exactly for a caller without an operator; otherwise exactly the routes the caller's operator owns |
| RouteAdmin.RouteService.ListSchedules | backend/src/main/java/com/tripgo/backend/service/impl/RouteService.java:212-237 | refused exactly for a caller without an operator; otherwise exactly the schedules (active or not) of owned routes |
| RouteAdmin.RouteService.DeleteSchedule | backend/src/main/java/com/tripgo/backend/service/impl/RouteService.java:265-276 | for the owner, only `active` becomes false and the row stays; any other caller gets the access check's message ("Access denied" or the null-dereference exception) and nothing changes |
| RouteAdmin.RouteService.DeleteRoute | backend/src/main/java/com/tripgo/backend/service/impl/RouteService.java:298-314 | any caller but the owner gets the access check's message and nothing changes; for the owner, the route's schedules and fares go; then its segments and the route go, or the segment delete fails when another route's fare still references one and the earlier deletes stay |
| RouteAdmin.NewSeqExceedsExisting | backend/src/main/java/com/tripgo/backend/service/impl/RouteService.java:80-89 | a route's first segment gets seq 1 and a new seq exceeds every seq already on the route |
| RouteAdmin.DistanceAfterAdd | backend/src/main/java/com/tripgo/backend/service/impl/RouteService.java:63-67 | adding a segment to a route adds its distance to the recomputed total |
| RouteAdmin.DistanceIgnoresOtherRoutes | backend/src/main/java/com/tripgo/backend/service/impl/RouteService.java:63-67 | a route without segments has distance 0, and another route's segment does not change it |
| RouteAdmin.FareTotalScalesBase | backend/src/main/java/com/tripgo/backend/service/impl/RouteService.java:126-127 | the total base + base * gst / 100 is the base scaled by (100 + gst) percent: at least the base for a non-negative base and rate, growing with the rate; 100 at 5% costs 105 |
| RouteAdmin.CreatedRouteIsListed | backend/src/main/java/com/tripgo/backend/service/impl/RouteService.java:175-190 | a route just created by an operator is among the routes that operator lists |
| RouteAdmin.SoftDeletedScheduleStaysListed | backend/src/main/java/com/tripgo/backend/service/impl/RouteService.java:274-275 | a soft-deleted schedule is still listed to its owner, inactive and otherwise unchanged |
| TripSearch.Capitalize | backend/src/main/java/com/tripgo/backend/controller/SearchController.java:67-67 | same length, first char upper-cased, the rest lower-cased |
| TripSearch.NormalizeStopName | backend/src/main/java/com/tripgo/backend/controller/SearchController.java:63-68 | null and "" unchanged; blank-only input fails at `substring`; otherwise the trimmed name capitalised |
| TripSearch.CapitalizeStable | backend/src/main/java/com/tripgo/backend/controller/SearchController.java:65-67 | capitalising a trimmed name keeps it trimmed and is idempotent |
| TripSearch.NormalizeIdempotent | backend/src/main/java/com/tripgo/backend/controller/SearchController.java:63-68 | normalising twice equals normalising once |
| TripSearch.TrimStartExample | backend/src/main/java/com/tripgo/backend/controller/SearchController.java:65-65 | leading blanks of "  bENGALURU " go |
| TripSearch.TrimEndExample | backend/src/main/java/com/tripgo/backend/controller/SearchController.java:65-65 | trailing blanks go |
| TripSearch.TrimExample | backend/src/main/java/com/tripgo/backend/controller/SearchController.java:65-65 | "  bENGALURU " trims to "bENGALURU" |
| TripSearch.CapitalizeExample | backend/src/main/java/com/tripgo/backend/controller/SearchController.java:67-67 | "bENGALURU" becomes "Bengaluru" |
| TripSearch.NormalizeExample | backend/src/main/java/com/tripgo/backend/controller/SearchController.java:63-68 | "  bENGALURU " normalises to "Bengaluru" |
| TripSearch.AdjustToDate | backend/src/main/java/com/tripgo/backend/controller/SearchController.java:70-74 | the result lies on the target day and keeps the original UTC time of day |
| TripSearch.AdjustToDateProperties | backend/src/main/java/com/tripgo/backend/controller/SearchController.java:70-74 | an instant already on the day is unchanged; re-basing twice is re-basing once to the last day |
| TripSearch.OnDate | backend/src/main/java/com/tripgo/backend/controller/SearchController.java:45-56 | the copy keeps id, route, bus, frequency and active, and moves both times onto the day |
| TripSearch.Search | backend/src/main/java/com/tripgo/backend/controller/SearchController.java:29-61 | a stop name that fails to normalise fails the search; otherwise the search succeeds iff every schedule found for the normalised names prices without error, giving one result per schedule in order, each priced on the re-based copy with seat type "SLEEPER", and a failure carries the error of the first schedule whose pricing fails |
| TripSearch.PriceAll | backend/src/main/java/com/tripgo/backend/controller/SearchController.java:42-60 | the mapped stream collected by `toList`: Ok iff every pricing succeeds, then the prices in order; otherwise the error of the first failing schedule |
| BusLayout.Berth | backend/src/main/java/com/tripgo/backend/service/impl/BusLayoutService.java:40-51 | a berth of the bus, numbered with its deck's letter |
| BusLayout.SleeperLayout | backend/src/main/java/com/tripgo/backend/service/impl/BusLayoutService.java:32-54 | 6 seats per row (none for rows < 1), all of the bus |
| BusLayout.SleeperBerth | backend/src/main/java/com/tripgo/backend/service/impl/BusLayoutService.java:32-54 | seats before the half are "U", after it "L" |
| BusLayout.SeaterLayout | backend/src/main/java/com/tripgo/backend/service/impl/BusLayoutService.java:56-63 | 4 seats per row (none for rows < 1), all of the bus |
| BusLayout.SeaterSeat | backend/src/main/java/com/tripgo/backend/service/impl/BusLayoutService.java:56-63 | a seat of the bus |
| BusLayout.SleeperSeatAt | backend/src/main/java/com/tripgo/backend/service/impl/BusLayoutService.java:40-51 | the berth stored at (deck, row, column) is at its place in the layout with number prefix + (3(row-1)+1+c) |
| BusLayout.SleeperDeckAt | backend/src/main/java/com/tripgo/backend/service/impl/BusLayoutService.java:40-51 | every row of a deck sits in the layout where the deck loop stores it |
| BusLayout.SleeperRowAt | backend/src/main/java/com/tripgo/backend/service/impl/BusLayoutService.java:42-49 | the three berths of a row sit consecutively, numbered on from the deck counter |
| BusLayout.SeaterRowAt | backend/src/main/java/com/tripgo/backend/service/impl/BusLayoutService.java:57-62 | row r's seats are "rA".."rD" at cols 1..4 on the lower deck |
| BusLayout.SeaterSeatAt | backend/src/main/java/com/tripgo/backend/service/impl/BusLayoutService.java:57-62 | the seat at column c of row r is row + letter c |
| BusLayout.BusLayoutService.constructor | backend/src/main/java/com/tripgo/backend/model/entities/Seat.java:13-15 | no seats yet, over the given buses |
| BusLayout.BusLayoutService.StoreStep | backend/src/main/java/com/tripgo/backend/service/impl/BusLayoutService.java:65-79 | a save succeeds iff the bus has no seat with that number (unique constraint), appending the row; otherwise the run fails |
| BusLayout.BusLayoutService.GenerateLayout | backend/src/main/java/com/tripgo/backend/service/impl/BusLayoutService.java:20-30 | "Bus not found" and "Invalid template" store nothing; each template stores its layout seat by seat |
| BusLayout.BusLayoutService.GenerateSleeper | backend/src/main/java/com/tripgo/backend/service/impl/BusLayoutService.java:32-54 | the nested loops store exactly `SleeperLayout` in order, stopping at the first duplicate |
| BusLayout.BusLayoutService.StoreDeck | backend/src/main/java/com/tripgo/backend/service/impl/BusLayoutService.java:40-51 | one deck's row loop stores the deck's 3·rows berths and leaves the counter one past them |
| BusLayout.BusLayoutService.StoreBerths | backend/src/main/java/com/tripgo/backend/service/impl/BusLayoutService.java:42-49 | one row's three berths are stored and the counter advances by 3 |
| BusLayout.BusLayoutService.GenerateSeater | backend/src/main/java/com/tripgo/backend/service/impl/BusLayoutService.java:56-63 | the loops store exactly `SeaterLayout` in order, stopping at the first duplicate |
| BusLayout.BusLayoutService.StoreSeaterRow | backend/src/main/java/com/tripgo/backend/service/impl/BusLayoutService.java:58-61 | one row's four seats A..D are stored |
| BusLayout.SleeperLayoutShape | backend/src/main/java/com/tripgo/backend/service/impl/BusLayoutService.java:32-54 | upper deck U1..U(3r) then lower deck L1..L(3r), row k/3+1, col k%3+1, type SLEEPER_UPPER iff upper |
| BusLayout.SeaterLayoutShape | backend/src/main/java/com/tripgo/backend/service/impl/BusLayoutService.java:56-79 | every seater seat is SLEEPER_LOWER on the lower deck, named row + letter A..D, cols 1..4 |
| BusLayout.PrefixedCounterInjective | backend/src/main/java/com/tripgo/backend/service/impl/BusLayoutService.java:43-47 | a letter-prefixed counter determines letter and counter |
| BusLayout.SuffixedCounterInjective | backend/src/main/java/com/tripgo/backend/service/impl/BusLayoutService.java:58-61 | a row number followed by a letter determines both |
| BusLayout.SleeperNumbersDistinct | backend/src/main/java/com/tripgo/backend/model/entities/Seat.java:13-15 | no two sleeper seats share a number |
| BusLayout.SleeperNumbersDiffer | backend/src/main/java/com/tripgo/backend/service/impl/BusLayoutService.java:32-54 | two positions of the sleeper layout have different numbers |
| BusLayout.SeaterNumbersDistinct | backend/src/main/java/com/tripgo/backend/model/entities/Seat.java:13-15 | no two seater seats share a number |
| BusLayout.SeaterNumbersDiffer | backend/src/main/java/com/tripgo/backend/service/impl/BusLayoutService.java:56-63 | two positions of the seater layout have different numbers |
| BusLayout.SeatLetterInjective | backend/src/main/java/com/tripgo/backend/service/impl/BusLayoutService.java:58-61 | columns get different letters |
| BusLayout.StoreAllFresh | backend/src/main/java/com/tripgo/backend/service/impl/BusLayoutService.java:65-79 | rows with distinct numbers for a bus without seats are all stored, in order |
| BusLayout.StoreAllFreshAgain | backend/src/main/java/com/tripgo/backend/service/impl/BusLayoutService.java:65-79 | rows whose numbers the bus does not have yet are all stored, in order |
| BusLayout.GenerateOnceThenFails | backend/src/main/java/com/tripgo/backend/model/entities/Seat.java:13-15 | a layout for a bus without seats is stored whole; generating it again fails at its first seat and stores nothing |
| BusLayout.SeatsOf | backend/src/main/java/com/tripgo/backend/controller/BusLayoutController.java:60-61 | only seats of the bus |
| BusLayout.ToResponses | backend/src/main/java/com/tripgo/backend/controller/BusLayoutController.java:63-70 | one response per seat with its number and type, always available |
| BusLayout.WithPrefix | backend/src/main/java/com/tripgo/backend/controller/BusLayoutController.java:84-87 | only responses whose number starts with the letter, drawn from the input |
| BusLayout.GetSeats | backend/src/main/java/com/tripgo/backend/controller/BusLayoutController.java:46-88 | unknown bus fails; no operator or a foreign bus gets 403; a bus without operator throws; the owner gets the bus's `findByBus` seats (taken in table order; see BusLayout.GetSeatsIgnoresRowOrder for any other order), all available, as one "lower" deck when no number starts with "U", otherwise as the "U" seats and the "L" seats, each in order |
| BusLayout.WithPrefixKeeps | backend/src/main/java/com/tripgo/backend/controller/BusLayoutController.java:84-87 | every response with the prefix is kept |
| BusLayout.WithPrefixAppend | backend/src/main/java/com/tripgo/backend/controller/BusLayoutController.java:84-87 | the filter distributes over concatenation, keeping order |
| BusLayout.WithPrefixCount | backend/src/main/java/com/tripgo/backend/controller/BusLayoutController.java:84-87 | "U" seats + "L" seats + seats with neither letter = all seats; the last are dropped |
| BusLayout.WithPrefixAll | backend/src/main/java/com/tripgo/backend/controller/BusLayoutController.java:84-87 | the filter keeps a list whose numbers all have the prefix |
| BusLayout.WithPrefixNone | backend/src/main/java/com/tripgo/backend/controller/BusLayoutController.java:84-87 | the filter empties a list without the prefix |
| BusLayout.SeatsOfAll | backend/src/main/java/com/tripgo/backend/controller/BusLayoutController.java:60-61 | a list of the bus's own seats comes back whole |
| BusLayout.SeatsOfAppend | backend/src/main/java/com/tripgo/backend/controller/BusLayoutController.java:60-61 | appending seats of the bus appends them to the lookup |
| BusLayout.SeatsOfNone | backend/src/main/java/com/tripgo/backend/controller/BusLayoutController.java:60-61 | a table without seats of the bus gives none |
| BusLayout.SleeperHalves | backend/src/main/java/com/tripgo/backend/service/impl/BusLayoutService.java:32-54 | the first half of a sleeper layout is "U", the second "L" |
| BusLayout.SeaterNumbersStartWithDigit | backend/src/main/java/com/tripgo/backend/controller/BusLayoutController.java:73-80 | no seater number starts with "U", so a seater bus is shown as one deck |
| BusLayout.ResponsesKeepPrefix | backend/src/main/java/com/tripgo/backend/controller/BusLayoutController.java:63-70 | responses keep the seat numbers' first letters |
| BusLayout.SleeperResponsesSplit | backend/src/main/java/com/tripgo/backend/controller/BusLayoutController.java:84-87 | the "U" and "L" filters split a sleeper layout's responses into its two halves |
| BusLayout.FreshBusSeats | backend/src/main/java/com/tripgo/backend/controller/BusLayoutController.java:60-61 | once a bus without seats receives a layout, the lookup returns exactly that layout |
| BusLayout.SleeperBusSplitsIntoDecks | backend/src/main/java/com/tripgo/backend/controller/BusLayoutController.java:73-87 | after generating a sleeper layout, the owner sees the upper deck as the first half and the lower as the second |
| BusLayout.SeaterBusIsSingleDeck | backend/src/main/java/com/tripgo/backend/controller/BusLayoutController.java:73-80 | after generating a seater layout, the owner sees one "lower" deck with the whole layout |
| BusLayout.SeatsOfMultiplicity | backend/src/main/java/com/tripgo/backend/controller/BusLayoutController.java:60-61 | the lookup holds each seat of the bus as often as the table does, and nothing else |
| BusLayout.WithPrefixMultiplicity | backend/src/main/java/com/tripgo/backend/controller/BusLayoutController.java:84-87 | the filter keeps each response with the prefix as often as the input holds it, and nothing else |
| BusLayout.ToResponsesPermutation | backend/src/main/java/com/tripgo/backend/controller/BusLayoutController.java:63-70 | reordering the seats only reorders their responses |
| BusLayout.SeatsOfPermutation | backend/src/main/java/com/tripgo/backend/repository/SeatRepository.java:11-11 | reordering the table only reorders the bus's seats |
| BusLayout.WithPrefixPermutation | backend/src/main/java/com/tripgo/backend/controller/BusLayoutController.java:84-87 | reordering the responses only reorders each deck |
| BusLayout.NoUpperBerthOrderFree | backend/src/main/java/com/tripgo/backend/controller/BusLayoutController.java:73-74 | whether a bus is shown as one deck does not depend on the order of its seats |
| BusLayout.GetSeatsIgnoresRowOrder | backend/src/main/java/com/tripgo/backend/repository/SeatRepository.java:11-11 | whatever order `findByBus` yields the rows in, a failure is the same failure and a success has the same decks, each with the same seats |
| SeatLayoutPage.BusTypeOrDefault | frontend/TripGo-frontend/src/pages/BusSeatLayout.jsx:22-22 | a missing or empty type becomes "SEATER", any other is kept |
| SeatLayoutPage.TotalSeatsOrDefault | frontend/TripGo-frontend/src/pages/BusSeatLayout.jsx:23-23 | NaN or 0 becomes 40, any other count is kept; never 0 |
| SeatLayoutPage.DeckSeats | frontend/TripGo-frontend/src/pages/BusSeatLayout.jsx:67-112 | exactly `count` berths (none when count <= 0) |
| SeatLayoutPage.CeilDiv | frontend/TripGo-frontend/src/pages/BusSeatLayout.jsx:167-167 | the least q with q * d >= n |
| SeatLayoutPage.SeaterSeats | frontend/TripGo-frontend/src/pages/BusSeatLayout.jsx:164-182 | exactly `total` seats (none when total <= 0) |
| SeatLayoutPage.Toggle | frontend/TripGo-frontend/src/pages/BusSeatLayout.jsx:193-197 | a selected id is removed (every copy), an unselected one appended |
| SeatLayoutPage.Without | frontend/TripGo-frontend/src/pages/BusSeatLayout.jsx:195-195 | exactly the other ids remain |
| SeatLayoutPage.DeckStep | frontend/TripGo-frontend/src/pages/BusSeatLayout.jsx:70-112 | one push extends the deck built so far by its next berth |
| SeatLayoutPage.SeaterStep | frontend/TripGo-frontend/src/pages/BusSeatLayout.jsx:169-180 | one push extends the seater layout built so far by its next seat |
| SeatLayoutPage.LayoutPage.constructor | frontend/TripGo-frontend/src/pages/BusSeatLayout.jsx:54-57 | no seats drawn and none selected |
| SeatLayoutPage.LayoutPage.GenerateSeats | frontend/TripGo-frontend/src/pages/BusSeatLayout.jsx:54-183 | the drawn seats become the layout for the type and count; the selection is kept |
| SeatLayoutPage.LayoutPage.ToggleSeat | frontend/TripGo-frontend/src/pages/BusSeatLayout.jsx:193-197 | the selection is toggled at the id; the drawn seats are kept |
| SeatLayoutPage.FillDeck | frontend/TripGo-frontend/src/pages/BusSeatLayout.jsx:70-112 | the `while` loop produces exactly `DeckSeats` |
| SeatLayoutPage.FillSeater | frontend/TripGo-frontend/src/pages/BusSeatLayout.jsx:164-182 | the nested `for` loops produce exactly `SeaterSeats` |
| SeatLayoutPage.LayoutCounts | frontend/TripGo-frontend/src/pages/BusSeatLayout.jsx:58-163 | a "SLEEPER" type gets floor(n/2) lower then n - floor(n/2) upper berths; any type gets exactly n seats for n >= 0, none for n < 0 |
| SeatLayoutPage.DeckNumbering | frontend/TripGo-frontend/src/pages/BusSeatLayout.jsx:70-112 | the k-th berth of a deck is numbered letter + (k+1), at row k div 3, col k mod 3 |
| SeatLayoutPage.SemiSleeperUnreachable | frontend/TripGo-frontend/src/pages/BusSeatLayout.jsx:58-176 | "SEMI_SLEEPER" contains "SLEEPER", so it takes the two-deck branch and the semi-sleeper kind is never drawn |
| SeatLayoutPage.IdsDistinct | frontend/TripGo-frontend/src/pages/BusSeatLayout.jsx:54-183 | seat ids within a layout are distinct |
| SeatLayoutPage.SleeperIdsDistinct | frontend/TripGo-frontend/src/pages/BusSeatLayout.jsx:58-163 | berth ids within the two-deck layout are distinct |
| SeatLayoutPage.SeaterIdsDistinct | frontend/TripGo-frontend/src/pages/BusSeatLayout.jsx:164-182 | seat ids within the one-deck layout are distinct |
| SeatLayoutPage.DeckLetterPrefix | frontend/TripGo-frontend/src/pages/BusSeatLayout.jsx:70-160 | the deck letter heads an id in one way only |
| SeatLayoutPage.BerthIdDetermines | frontend/TripGo-frontend/src/pages/BusSeatLayout.jsx:70-160 | a berth id determines its deck, row and column |
| SeatLayoutPage.BerthIdsDistinct | frontend/TripGo-frontend/src/pages/BusSeatLayout.jsx:70-160 | different berths have different ids |
| SeatLayoutPage.ToggleFlipsOneId | frontend/TripGo-frontend/src/pages/BusSeatLayout.jsx:193-197 | toggling keeps the selection duplicate-free and flips only the clicked id |
| SeatLayoutPage.WithoutKeepsNoDuplicates | frontend/TripGo-frontend/src/pages/BusSeatLayout.jsx:195-195 | removing an id keeps a list duplicate-free |
| SeatLayoutPage.WithoutAbsent | frontend/TripGo-frontend/src/pages/BusSeatLayout.jsx:195-195 | removing an absent id changes nothing |
| SeatLayoutPage.ToggleTwice | frontend/TripGo-frontend/src/pages/BusSeatLayout.jsx:193-197 | toggling twice restores the selected set, and the list itself when the id was absent |
| SeatLayoutPage.WithoutAppended | frontend/TripGo-frontend/src/pages/BusSeatLayout.jsx:195-196 | removing an id just appended gives back the list |
| Tokens.Save | backend/src/main/java/com/tripgo/backend/security/service/RefreshTokenService.java:64-67 | the row with the id is replaced (same length) or the row is appended; it is in the table afterwards |
| Tokens.SaveReplacesAt | backend/src/main/java/com/tripgo/backend/security/service/RefreshTokenService.java:64-67 | with unique ids, saving replaces exactly the row carrying the id |
| Tokens.SaveIdempotent | backend/src/main/java/com/tripgo/backend/security/service/RefreshTokenService.java:64-67 | saving twice is saving once |
| Tokens.SaveKeepsIdsUnique | backend/src/main/java/com/tripgo/backend/security/service/RefreshTokenService.java:64-67 | saving keeps ids unique and every row is the saved one or a row of another id |
| Tokens.FirstActive | backend/src/main/java/com/tripgo/backend/security/service/RefreshTokenService.java:47-50 | the first unrevoked row with the value, `None` exactly when there is none |
| Tokens.RevokeAllOf | backend/src/main/java/com/tripgo/backend/security/service/RefreshTokenService.java:31-31 | same number of rows |
| Tokens.RevokeAllOfAt | backend/src/main/java/com/tripgo/backend/security/service/RefreshTokenService.java:31-31 | the user's rows become revoked, every other row is unchanged |
| Tokens.DeleteAllOf | backend/src/main/java/com/tripgo/backend/security/service/RefreshTokenService.java:72-74 | exactly the other users' rows remain |
| Tokens.RefreshOutcome | backend/src/main/java/com/tripgo/backend/security/service/RefreshTokenService.java:46-59 | "Invalid refresh token" iff no unrevoked row has the value; otherwise the first such row succeeds iff its expiry is at or after now, and a success is that row; else "Refresh token expired" |
| Tokens.RefreshTokenService.constructor | backend/src/main/java/com/tripgo/backend/security/service/RefreshTokenService.java:22-23 | an empty table with the configured lifetime |
| Tokens.RefreshTokenService.CreateRefreshToken | backend/src/main/java/com/tripgo/backend/security/service/RefreshTokenService.java:28-41 | the user's rows are revoked, then the value is stored unrevoked, expiring at now + lifetime |
| Tokens.RefreshTokenService.ValidateRefreshToken | backend/src/main/java/com/tripgo/backend/security/service/RefreshTokenService.java:16-59 | answers `RefreshOutcome`; the revocation saved for an expired token is rolled back with the exception by the class's `@Transactional`, so the table is unchanged on every path |
| Tokens.RefreshTokenService.FindActive | backend/src/main/java/com/tripgo/backend/security/service/RefreshTokenService.java:47-50 | the scan finds exactly `FirstActive` |
| Tokens.RefreshTokenService.RevokeToken | backend/src/main/java/com/tripgo/backend/security/service/RefreshTokenService.java:64-67 | the row is saved with `revoked` set |
| Tokens.RefreshTokenService.RevokeAllForUser | backend/src/main/java/com/tripgo/backend/security/service/RefreshTokenService.java:72-74 | the user's rows are deleted, not revoked |
| Tokens.RevokeAllOfKeepsIds | backend/src/main/java/com/tripgo/backend/security/service/RefreshTokenService.java:31-37 | revoking does not introduce the new token's id |
| Tokens.CreateLeavesOneActive | backend/src/main/java/com/tripgo/backend/security/service/RefreshTokenService.java:31-37 | right after a create the user's only unrevoked token is the new one; other users' rows are unchanged |
| Tokens.CreatedRefreshTokenValidates | backend/src/main/java/com/tripgo/backend/security/service/RefreshTokenService.java:52-56 | the new token validates up to and including its expiry instant and is expired after it |
| Tokens.ExpiredRefreshTokenStaysExpired | backend/src/main/java/com/tripgo/backend/security/service/RefreshTokenService.java:52-56 | a value found expired keeps answering "Refresh token expired" at every later instant, never "Invalid refresh token", because its revocation is not kept |
| Tokens.RevokeTwiceIsRevokeOnce | backend/src/main/java/com/tripgo/backend/security/service/RefreshTokenService.java:64-67 | `revokeToken` is idempotent |
| Tokens.DeletedUserCannotRefresh | backend/src/main/java/com/tripgo/backend/security/service/RefreshTokenService.java:72-74 | after the delete, a value held only by the user is invalid and one held only by others validates as before |
| Tokens.FoundActiveStep | backend/src/main/java/com/tripgo/backend/security/service/RefreshTokenService.java:47-50 | the search answers the head if active, otherwise the tail's answer |
| Tokens.FirstActiveAfterDelete | backend/src/main/java/com/tripgo/backend/security/service/RefreshTokenService.java:72-74 | deleting a user who holds no active row for the value leaves the token found unchanged |
| Tokens.FirstUnused | backend/src/main/java/com/tripgo/backend/security/service/EmailVerificationService.java:37-40 | the first unused row with the value, `None` exactly when there is none |
| Tokens.CheckToken | backend/src/main/java/com/tripgo/backend/security/service/EmailVerificationService.java:36-47 | the invalid message iff no unused row has the value; otherwise the first such row succeeds iff its expiry is at or after now, and a success is that row; else the expired message |
| Tokens.OneTimeTokenService.EmailVerification | backend/src/main/java/com/tripgo/backend/security/service/EmailVerificationService.java:18-22 | empty table, the verification lifetime and the verification messages |
| Tokens.OneTimeTokenService.PasswordReset | backend/src/main/java/com/tripgo/backend/service/impl/PasswordResetService.java:18-22 | empty table, the reset lifetime and the reset messages |
| Tokens.OneTimeTokenService.CreateToken | backend/src/main/java/com/tripgo/backend/security/service/EmailVerificationService.java:24-34 | the new token is appended unused, expiring at now + lifetime; earlier tokens stay |
| Tokens.OneTimeTokenService.ValidateToken | backend/src/main/java/com/tripgo/backend/service/impl/PasswordResetService.java:36-47 | answers `CheckToken` and changes nothing |
| Tokens.OneTimeTokenService.MarkUsed | backend/src/main/java/com/tripgo/backend/security/service/EmailVerificationService.java:49-52 | the row is saved with `used` set |
| Tokens.FirstUnusedAppend | backend/src/main/java/com/tripgo/backend/security/service/EmailVerificationService.java:24-34 | appending a row leaves the first unused row as it was; only when there was none can the new row be found |
| Tokens.CreatedTokenValidates | backend/src/main/java/com/tripgo/backend/service/impl/PasswordResetService.java:42-44 | a new token validates up to and including its expiry and is expired after it; other values are unaffected |
| Tokens.UsedTokenNeverValidates | backend/src/main/java/com/tripgo/backend/security/service/EmailVerificationService.java:49-52 | after `markUsed` the value never validates again |
| Tokens.CheckTokenWitness | backend/src/main/java/com/tripgo/backend/security/service/EmailVerificationService.java:36-47 | a success is the first unused row; an expiry answer means an unused row with that value expired strictly before now |
| OAuthLogin.SplitName | backend/src/main/java/com/tripgo/backend/security/OAuth2SuccessHandler.java:42-48 | null gives no first name and ""; no blank gives the whole name and ""; otherwise a blank-free first name and the rest, joined by the first blank |
| OAuthLogin.SplitNameUnique | backend/src/main/java/com/tripgo/backend/security/OAuth2SuccessHandler.java:42-48 | the split is the only one whose first part has no blank |
| OAuthLogin.SplitNameExample | backend/src/main/java/com/tripgo/backend/security/OAuth2SuccessHandler.java:42-48 | "Ada Lovelace King" splits into "Ada" and "Lovelace King" |
| OAuthLogin.FindByEmail | backend/src/main/java/com/tripgo/backend/security/OAuth2SuccessHandler.java:50-50 | the first account with the e-mail, `None` exactly when there is none |
| OAuthLogin.SignIn | backend/src/main/java/com/tripgo/backend/security/OAuth2SuccessHandler.java:50-60 | an existing account is reused unchanged; otherwise a new one (user name = e-mail, verified, no password, split name) is appended, or the store refuses it for a null first name or a taken user name |
| OAuthLogin.SignInAgainReusesAccount | backend/src/main/java/com/tripgo/backend/security/OAuth2SuccessHandler.java:50-60 | signing in again with the same e-mail finds the same account and leaves the table as it is |
| OAuthLogin.OAuth2SuccessHandler.constructor | backend/src/main/java/com/tripgo/backend/security/OAuth2SuccessHandler.java:20-26 | no accounts, over the given refresh-token service |
| OAuthLogin.OAuth2SuccessHandler.OnAuthenticationSuccess | backend/src/main/java/com/tripgo/backend/security/OAuth2SuccessHandler.java:32-80 | the accounts follow `SignIn`; a refresh token is stored for the account only when the response is not committed |
| Registration.PatternViolations | backend/src/main/java/com/tripgo/backend/dto/request/RegisterRequest.java:23-35 | "required" iff blank, "mismatch" iff present and not matching; none iff both hold |
| Registration.NoViolationsIffAccepted | backend/src/main/java/com/tripgo/backend/dto/request/RegisterRequest.java:14-35 | no violation exactly when the body is accepted; the last name plays no part |
| Registration.EmptyPhoneReportsBoth | backend/src/main/java/com/tripgo/backend/dto/request/RegisterRequest.java:23-28 | an empty phone reports both "required" and "exactly 10 digits" |
| Registration.PasswordPatternAccepts | backend/src/main/java/com/tripgo/backend/dto/request/RegisterRequest.java:31-34 | eight chars with one of each kind pass |
| Registration.PasswordPatternRejects | backend/src/main/java/com/tripgo/backend/dto/request/RegisterRequest.java:31-34 | no upper case, no digit, too short or a disallowed char fails |
| SignupForms.JsBlankIffTrimEmpty | frontend/TripGo-frontend/src/components/auth/DesktopForm.jsx:89-89 | a value is blank iff JavaScript's `trim` empties it |
| SignupForms.EmailAt | frontend/TripGo-frontend/src/components/auth/DesktopForm.jsx:101-101 | a matching address has an '@' after a non-empty local part and before a domain with a dot |
| SignupForms.DigitsOnly | frontend/TripGo-frontend/src/components/auth/DesktopForm.jsx:108-108 | only digits remain, no more than were there |
| SignupForms.CheckedField | frontend/TripGo-frontend/src/components/auth/DesktopForm.jsx:99-103 | no error iff not blank and the check passes; blank gives the required message |
| SignupForms.RequiredField | frontend/TripGo-frontend/src/components/auth/DesktopForm.jsx:89-91 | no error iff not blank, else the required message |
| SignupForms.CollectAt | frontend/TripGo-frontend/src/components/auth/DesktopForm.jsx:86-135 | the error object holds exactly the checked fields with an error, each under its message |
| SignupForms.CollectSnoc | frontend/TripGo-frontend/src/components/auth/DesktopForm.jsx:86-132 | checking one more field records its error on top of the earlier ones |
| SignupForms.CollectEmpty | frontend/TripGo-frontend/src/components/auth/DesktopForm.jsx:134-135 | no error at all iff every checked field passes |
| SignupForms.EmptyMapHasNoSize | frontend/TripGo-frontend/src/components/auth/DesktopForm.jsx:135-135 | no keys iff the object is empty |
| SignupForms.CheckField | frontend/TripGo-frontend/src/components/auth/DesktopForm.jsx:99-103 | one required-then-checked step records that field's error |
| SignupForms.CheckRequired | frontend/TripGo-frontend/src/components/auth/DesktopForm.jsx:89-91 | one required step records that field's error |
| SignupForms.SignupErrorsAt | frontend/TripGo-frontend/src/components/auth/DesktopForm.jsx:85-136 | the error object names each failing field of the form with its message, and nothing else |
| SignupForms.SignupErrorsEmptyIffValid | frontend/TripGo-frontend/src/components/auth/DesktopForm.jsx:134-135 | no field error exactly when the form is valid |
| SignupForms.SignupFieldPasses | frontend/TripGo-frontend/src/components/auth/DesktopForm.jsx:85-136 | every field of a valid form passes |
| SignupForms.SignupFailingField | frontend/TripGo-frontend/src/components/auth/DesktopForm.jsx:85-136 | an invalid form has a failing field |
| SignupForms.PersonalErrorsSteps | frontend/TripGo-frontend/src/components/auth/DesktopForm.jsx:89-127 | the personal checks in their written order |
| SignupForms.SignupFieldErrors | frontend/TripGo-frontend/src/components/auth/DesktopForm.jsx:89-132 | each field's rule: required names, e-mail regex, ten digits once non-digits are deleted, the client password rule, confirmation equal to the password, terms ticked |
| SignupForms.CheckPersonal | frontend/TripGo-frontend/src/components/auth/DesktopForm.jsx:89-127 | the first six checks build the personal part of the error object |
| SignupForms.CheckTerms | frontend/TripGo-frontend/src/components/auth/DesktopForm.jsx:130-132 | an unticked box records the terms error |
| SignupForms.ValidateSignup | frontend/TripGo-frontend/src/components/auth/DesktopForm.jsx:85-136 | the error object is `SignupErrors` and the answer is true iff the form is valid |
| SignupForms.OperatorFormRepeatsPersonalRules | frontend/TripGo-frontend/src/components/auth/DesktopOperatorForm.jsx:76-104 | on personal fields the operator form reports what the traveller form reports |
| SignupForms.CompanyFieldPasses | frontend/TripGo-frontend/src/components/auth/DesktopOperatorForm.jsx:73-123 | every field of a valid operator form passes |
| SignupForms.CompanyFailingField | frontend/TripGo-frontend/src/components/auth/DesktopOperatorForm.jsx:106-119 | an invalid operator form with valid personal fields has a failing company field |
| SignupForms.OperatorErrorsEmptyIffValid | frontend/TripGo-frontend/src/components/auth/DesktopOperatorForm.jsx:121-122 | no field error exactly when the operator form is valid |
| SignupForms.CollectAgree | frontend/TripGo-frontend/src/components/auth/DesktopOperatorForm.jsx:76-104 | checks agreeing on the checked fields build the same error object |
| SignupForms.OperatorErrorsSteps | frontend/TripGo-frontend/src/components/auth/DesktopOperatorForm.jsx:106-119 | the company checks follow the personal ones in their written order |
| SignupForms.RequiredCompanyFields | frontend/TripGo-frontend/src/components/auth/DesktopOperatorForm.jsx:106-118 | company name, short name and address only need a value |
| SignupForms.CheckedCompanyFields | frontend/TripGo-frontend/src/components/auth/DesktopOperatorForm.jsx:108-119 | contact phone uses the ten-digit rule, contact e-mail the e-mail regex, then the terms |
| SignupForms.ValidateOperator | frontend/TripGo-frontend/src/components/auth/DesktopOperatorForm.jsx:73-123 | the error object is `OperatorErrors` and the answer is true iff the form is valid |
| SignupForms.IndexOf | frontend/TripGo-frontend/src/components/auth/DesktopForm.jsx:61-61 | the first occurrence, `None` exactly when absent |
| SignupForms.OccursAtTail | frontend/TripGo-frontend/src/components/auth/DesktopForm.jsx:61-61 | an occurrence past the head is one in the tail |
| SignupForms.SplitSecond | frontend/TripGo-frontend/src/components/auth/DesktopForm.jsx:61-61 | undefined iff the separator is absent; the piece holds no separator |
| SignupForms.SignupServerError | frontend/TripGo-frontend/src/components/auth/DesktopForm.jsx:56-77 | "phone:" is checked first; a non-JSON body mentioning a taken e-mail lands under the e-mail; a general message only when neither "already in use" text appears |
| SignupForms.OperatorServerError | frontend/TripGo-frontend/src/components/auth/DesktopOperatorForm.jsx:50-65 | "email:" is checked first and shows the text after "email: "; a non-JSON body gives "Registration failed. Please try again." |
| SignupForms.BothPrefixesOrderMatters | frontend/TripGo-frontend/src/components/auth/DesktopOperatorForm.jsx:52-55 | a message naming both fields lands under the phone on one form and the e-mail on the other |
| SignupForms.FormsAgreeOnOnePrefix | frontend/TripGo-frontend/src/components/auth/DesktopOperatorForm.jsx:52-62 | the forms agree on JSON bodies naming at most one field |
| SignupForms.NotJsonDiffers | frontend/TripGo-frontend/src/components/auth/DesktopOperatorForm.jsx:63-64 | a non-JSON "Email already in use" body is a field error on one form and a general one on the other |
| SignupForms.EmailDetailShown | frontend/TripGo-frontend/src/components/auth/DesktopForm.jsx:60-61 | "email: detail" shows `detail` under the e-mail on both forms |
| SignupForms.ClientPasswordWithBothCasesPassesServer | backend/src/main/java/com/tripgo/backend/dto/request/RegisterRequest.java:31-34 | a client-valid password with both cases passes the server pattern |
| SignupForms.ServerPasswordWithoutHashPassesClient | frontend/TripGo-frontend/src/components/auth/DesktopForm.jsx:116-116 | a server-valid password without '#' passes the client |
| SignupForms.LowerCasePasswordPassesOnlyClient | frontend/TripGo-frontend/src/components/auth/DesktopForm.jsx:116-116 | "abcdefg1@" passes the client and fails the server |
| SignupForms.HashPasswordPassesOnlyServer | frontend/TripGo-frontend/src/components/auth/DesktopForm.jsx:116-116 | "Abcdefg1#" passes the server and fails the client |
| SignupForms.DigitsOnlyOfDigits | frontend/TripGo-frontend/src/components/auth/DesktopForm.jsx:108-108 | deleting non-digits leaves digits unchanged |
| SignupForms.DigitsOnlyAppend | frontend/TripGo-frontend/src/components/auth/DesktopForm.jsx:108-108 | deleting non-digits distributes over concatenation |
| SignupForms.ServerPhonePassesClient | backend/src/main/java/com/tripgo/backend/dto/request/RegisterRequest.java:24-27 | every phone the server accepts passes the client |
| SignupForms.DashedPhonePassesOnlyClient | frontend/TripGo-frontend/src/components/auth/DesktopForm.jsx:108-108 | ten digits with a dash pass the client and fail the server |
| SignupForms.BlankChecksDiffer | frontend/TripGo-frontend/src/components/auth/DesktopForm.jsx:89-89 | JavaScript's trim removes U+00A0 and keeps U+0001; Java's the reverse |
| SignupForms.ClientValidReachesServer | frontend/TripGo-frontend/src/components/auth/DesktopForm.jsx:141-143 | a client-valid form whose password has both cases, whose phone is ten plain digits and whose first name has a visible char is accepted by the server |
| Text.TrimStart | backend/src/main/java/com/tripgo/backend/controller/SearchController.java:65-65 | a suffix of the input, starting at a non-space, after only spaces |
| Text.TrimEnd | backend/src/main/java/com/tripgo/backend/controller/SearchController.java:65-65 | a prefix of the input, ending at a non-space, before only spaces |
| Text.Trim | backend/src/main/java/com/tripgo/backend/controller/SearchController.java:65-65 | no space at either end; empty iff the input is all spaces |
| Text.TrimOfTrimmed | backend/src/main/java/com/tripgo/backend/controller/SearchController.java:65-65 | trimming a trimmed string changes nothing |
| Text.AsciiUpper | backend/src/main/java/com/tripgo/backend/controller/SearchController.java:67-67 | lower-case letters go up by 32, anything else is kept |
| Text.AsciiLower | backend/src/main/java/com/tripgo/backend/controller/SearchController.java:67-67 | upper-case letters go down by 32, anything else is kept |
| Text.LowerAll | backend/src/main/java/com/tripgo/backend/controller/SearchController.java:67-67 | each char lowered |
| Text.IndexOfChar | backend/src/main/java/com/tripgo/backend/security/OAuth2SuccessHandler.java:43-43 | the first position of the char, -1 iff absent |
| Text.DigitChar | backend/src/main/java/com/tripgo/backend/service/impl/BusLayoutService.java:41-50 | a decimal digit |
| Text.NatToString | backend/src/main/java/com/tripgo/backend/service/impl/BusLayoutService.java:41-50 | a non-empty string of digits, at least two from 10 on |
| Text.NatToStringInjective | backend/src/main/java/com/tripgo/backend/model/entities/Seat.java:13-15 | distinct counters render distinctly |
| Text.SplitAtSeparator | frontend/TripGo-frontend/src/pages/BusSeatLayout.jsx:172-172 | a non-digit separator splits "digits + sep + rest" one way only, so a "row-col" seat id determines its row and column |

## Left out

- Logging is not modelled: the `System.out.println` in `SearchController.java:38` and the forms' `console.error` calls (for example `DesktopOperatorForm.jsx:68`) have no effect on any result.
- Concurrency between simultaneous `lockSeats` calls is not modelled. Calls run one after another, and only the store's insert-fails-on-taken-key rule is kept.
- SeatLocking.SeatLockService.LockSeats: reads the clock once for the whole call. The source reads `Instant.now()` again for each seat's active check and `createdAt`.
- The `@Scheduled` timer of `LockScheduler` is left out. Cleanup is the method `CleanupExpired(now)`.
- `AvailabilityService` is left out: it only forwards to `searchAvailability`.
- `findByFromAndToAndDate`, the schedule query of `search`, is declared nowhere in the repository, so `TripSearch.Search` takes it as a function parameter. The per-schedule availability call is a parameter too, answering a `Result` so that its exceptions abort the search.
- `fareRepository.findByRoute`, which `deleteRoute` calls (`RouteService.java:309`), is declared nowhere: `FareRepository` declares only `findByRouteOrderBySeatType`, `findByRouteSegment` and `findByRouteSegmentIdAndSeatType`. RouteAdmin.RouteService.DeleteRoute takes it to return the route's fares, as a derived query of that name would.
- The fare lookup compares the seat type exactly; the database's collation, which could make it ignore case, is not part of this model.
- Null columns and null arguments are not modelled: a null `distanceKm` or `gstPercent` throws a `NullPointerException` (`RouteService.java:126`, `SeatAvailabilityService.java:45-47`), and a null template throws in `generateLayout`'s `switch`. Foreign-key failures are not modelled either, such as those `deleteRoute` hits when it deletes schedules that still have seat locks. Java strings are UTF-16 code units while Dafny's `char` is a scalar value, which differs for `substring(0, 1)` on a name starting outside the Basic Multilingual Plane.
- Text.AsciiUpper: case mapping covers ASCII letters only. Java's `toUpperCase`, `toLowerCase` and `equalsIgnoreCase` also map other scripts.
- Text.AsciiLower: same ASCII-only limitation.
- The `@Email` check is not modelled. It is a parameter of the registration rules, and like the library's check it should accept "".
- HTTP is not modelled: status codes, cookies, redirects, JWT generation, BCrypt and Spring Security's authentication objects. The refresh-token value arrives as a parameter.
- DTOs and JSON mapping are not modelled. Results are the modelled rows or small response records.
- The messages the database reports, the duplicate-key and null-column texts in `UniqueViolation`, `DuplicateSeat`, `FirstNameNull`, `UsernameTaken` and `SegmentStillReferenced`, are illustrative. The source only shows that the store throws.
- Tokens.FirstActive: when several rows share a value, the model takes the first. Spring Data's `Optional` finder would throw on more than one match.
- Tokens.FirstUnused: same first-match simplification.
- OAuthLogin.SignIn: an e-mail attribute that is `null` is not modelled; the e-mail is always a string.
- The seat `status` field and the generated seat id of `storeSeat` are not modelled.
- SignupForms.SignupServerError: a JSON body that parses to `null` is treated as one that does not parse. In JavaScript, the property access on `null` throws inside the same `try`.
- SignupForms.OperatorServerError: same treatment of a `null` body.
- Time is an integer count of milliseconds since the epoch, in UTC.
- `MobileLayout`, `MobileOperatorLayout` and the reset-password forms repeat the traveller form's predicates, so one model covers them.
- The network-error branches of the forms are not modelled. The forms' React state, rendering and navigation are left out too.
- RouteAdmin.RouteService.ListRoutes: answers a set. The source returns a list in repository order.
- RouteAdmin.RouteService.ListSchedules: answers a set, as above.
- BusLayout.GetSeats: takes `findByBus` (SeatRepository.java:11) to return the bus's rows in table (insertion) order, which the query does not promise, having no ORDER BY; BusLayout.GetSeatsIgnoresRowOrder proves that any other order of the rows changes only the order inside each deck.
- Money is `real`, exact as `BigDecimal` is for these sums and the division by 100. Rounding and scale are not modelled.
- The operator page's `generateSeats` is modelled on the parsed count. `parseInt` itself is left out: its outcome is the `Option<int>` given to `TotalSeatsOrDefault`.
