# Air Canada fare watcher: a verified model of the price engine

This project models the core of a fare watcher for Air Canada flights:

- The backend keeps a list of watched trips (origin, destination, dates, an optional maximum price). Twice a day it sweeps the active trips: it asks the Duffel flight API for the lowest Air Canada fare, stores it, analyses it against the trip's 30-day price history, and sends SMS alerts.
- The frontend shows a 0–10 deal badge and a buy/wait recommendation for each trip, and validates the form that adds a trip.

The model has six modules, one per source file, plus a shared one:

| file | module | models |
|---|---|---|
| `common.dfy` | `Common` | values shared by several files: the destination record, JavaScript truthiness of `max_price`, day counting, lookup by id, min/max |
| `price_analyzer.dfy` | `PriceAnalyzer` | `backend/src/services/priceAnalyzer.js`: quality score, trend, buy rule, price-drop detector |
| `price_checker.dfy` | `PriceChecker` | `backend/src/cron/priceChecker.js`: the sweep with its `isRunning` lock, as the class `Checker` over in-memory tables |
| `duffel_service.dfy` | `DuffelService` | `backend/src/services/duffelService.js`: the offer request, the Air Canada filter, the flight summary, the lowest price, and the alternative-date search |
| `destination_controller.dfy` | `DestinationController` | `backend/src/controllers/destinationController.js`: create validation and the UPDATE statement builder, as the class `DestinationStore` |
| `destination_card.dfy` | `DestinationCard` | `frontend/src/components/DestinationCard.js`: badge, recommendation, savings |
| `add_destination_form.dfy` | `AddDestinationForm` | `frontend/src/components/AddDestinationForm.js`: initial state, field updates, submit validation |

Conventions of the model:

- **Prices** are exact `real`s.
- **Calendar dates** are `int` day numbers. A date string parses to midnight of its day.
- **Instants** are `real` day numbers. "Now" is a parameter, `now: real`.
- **The server clock** is taken to run in UTC. Local-time date arithmetic (`parseISO`, `setDate`) and UTC formatting (`toISOString`) then agree, so a date string is midnight of its day number.
- `differenceInDays` truncates the difference toward zero (`Common.DaysUntil`).
- **The database** is modelled in memory:
  - observations of the prices table, oldest first;
  - alert rows;
  - notifications;
  - destination rows.
- **The prices table** is stored in insertion order, and the model requires that order to be chronological (`PriceChecker.Chronological`, part of `Checker.Valid`): each check stamps its row with the current instant, and the sweep's clock never runs backwards (`now` is at least every stored `checked_at`). Two rows with the same `checked_at` are ordered by insertion, the later insert counting as the newer; SQLite leaves the order of such ties unspecified.
- **The 30-day query** (`ORDER BY checked_at DESC`) is `PriceChecker.Window`, and its prices are `PriceChecker.History`. It reads the observations newest first. The `LIMIT 1` query of the last price is `PriceChecker.LastPrice`, the latest row of that destination.
- **Duffel** is a scripted stream of answers, `Price(p) | NoOffer | Fail`. `getLowestPrice` turns both `NoOffer` and `Fail` into null.
- **Twilio** is a scripted stream of outcomes:
  - `Delivered`;
  - `Simulated`, the service's no-credentials mode;
  - `Threw`. `sendSMS` rethrows errors, so a `Threw` aborts `analyzeAndAlert`, and `checkDestinationPrice` catches it.

## Model

| member | source | states |
|---|---|---|
| Common.TruncateTowardZero | backend/src/services/priceAnalyzer.js:164-167 | for non-negative x the result is the whole number of days in x (floor); for negative x it is the ceiling, so a departure 1.5 days ago counts as −1 |
| Common.Lookup | backend/src/services/priceAnalyzer.js:136-141 | `SELECT … WHERE id = ?`: a found record is in the table with that id; not found means no record has that id |
| Common.Min | backend/src/services/priceAnalyzer.js:38 | `Math.min(...)` of a non-empty list is one of its elements and no element is smaller |
| Common.Max | backend/src/services/priceAnalyzer.js:39 | `Math.max(...)` of a non-empty list is one of its elements and no element is larger |
| PriceAnalyzer.Sum | backend/src/services/priceAnalyzer.js:37 | the sum of a non-empty list of positive prices is positive |
| PriceAnalyzer.Average | backend/src/services/priceAnalyzer.js:37 | the average of positive prices is positive, so the later divisions by it are defined |
| PriceAnalyzer.SumOfConstant | backend/src/services/priceAnalyzer.js:37 | a list of n copies of c sums to n·c |
| PriceAnalyzer.AverageOfConstant | backend/src/services/priceAnalyzer.js:37 | a list of copies of c averages to c |
| PriceAnalyzer.CalculateTrend | backend/src/services/priceAnalyzer.js:108-124 | fewer than 4 prices give 'stable'; 'hausse' iff the first three average more than 105 % of the older group's average, 'baisse' iff they average less than 95 % of it |
| PriceAnalyzer.HistoryTrendComparesTwoOlderPrices | backend/src/services/priceAnalyzer.js:61-62 | the score's trend sees only the first 5 history entries, so with 5 or more the older group is exactly entries 3 and 4 |
| PriceAnalyzer.AveragePenalty | backend/src/services/priceAnalyzer.js:51-52 | the average penalty is never negative; it is 0 iff the current price is at or below the average; above it, it is 40 % of the percentage above the average |
| PriceAnalyzer.RangePosition | backend/src/services/priceAnalyzer.js:55-57 | 50 when min equals max; a price within a proper range sits between 0 and 100 |
| PriceAnalyzer.Clamp | backend/src/services/priceAnalyzer.js:70 | the result lies in [0, 100] and a value already in it is kept |
| PriceAnalyzer.RoundHalfUp | backend/src/services/priceAnalyzer.js:89 | `Math.round` is floor(x + 0.5), and maps [0, 100] into the integers 0..100 |
| PriceAnalyzer.ClampedScore | backend/src/services/priceAnalyzer.js:48-70 | the unrounded score lies in [0, 100] |
| PriceAnalyzer.QualityScore | backend/src/services/priceAnalyzer.js:28-100 | the score is an integer in [0, 100]; an empty history gives exactly 50, no statistics, and is the only case giving 'Pas assez de donnees historiques'; otherwise the statistics count every history entry |
| PriceAnalyzer.CalculateQualityScore | backend/src/services/priceAnalyzer.js:47-100 | decrementing and incrementing a local score step by step produces the report of `QualityScore` |
| PriceAnalyzer.RecommendationAgreesWithScore | backend/src/services/priceAnalyzer.js:73-89 | 'Excellent moment' iff the clamped score is at least 90; each band implies that the rounded score meets its threshold, and a rounded score strictly above a threshold implies that band or a better one |
| PriceAnalyzer.BandUsesUnroundedScore | backend/src/services/priceAnalyzer.js:73-89 | history [100, 200] with price 135 scores 89.5: it rounds to 90 but is banded 'Bon prix', not 'Excellent moment' |
| PriceAnalyzer.RisingTrendRaisesScore | backend/src/services/priceAnalyzer.js:48-89 | as written a rising trend adds 15: history [120, 120, 120, 100, 100] at price 120 is rising and scores 575/7 (82, a good price); without the +15 it would score 67, an average price |
| PriceAnalyzer.ConstantHistoryScores85 | backend/src/services/priceAnalyzer.js:51-70 | a history whose entries all equal the current price scores exactly 85 (no average penalty, a range deduction of 15, stable trend) |
| PriceAnalyzer.ShouldBuyNow | backend/src/services/priceAnalyzer.js:132-184 | a missing destination gives 'Destination introuvable'; buy/high iff a nonzero max_price is reached or the score is at least 85; buy/medium iff neither holds, the score is 70–84 and the looked-up row's departure date is at most 14 days away; otherwise wait with the score, the score's recommendation and the day count; a buy's reason is target reached iff the price is under a nonzero max_price, excellent historic price iff not and the score is at least 85, and good price departing soon iff the urgency is medium |
| PriceAnalyzer.ZeroMaxPriceIsNotATarget | backend/src/services/priceAnalyzer.js:144 | a max_price of 0 is falsy, so it is never a target: with a score below 70 the answer is not to buy, whatever the price |
| PriceAnalyzer.DetectPriceDrop | backend/src/services/priceAnalyzer.js:192-219 | null without a stored price; otherwise a record iff the current price is at most 85 % of the last one, holding the last price, the current price, the drop and its percentage |
| PriceAnalyzer.NoDropAgainstSamePrice | backend/src/services/priceAnalyzer.js:203-218 | compared with itself, a price shows no drop |
| PriceChecker.Window | backend/src/services/priceAnalyzer.js:19-26 | `WHERE destination_id = ? AND checked_at >= ?`: every row returned is a stored row of that destination inside the window |
| PriceChecker.WindowComplete | backend/src/services/priceAnalyzer.js:19-26 | every stored row of that destination inside the window is returned |
| PriceChecker.WindowNewestFirst | backend/src/services/priceAnalyzer.js:19-26 | `ORDER BY checked_at DESC`: on a chronological table the rows come newest first |
| PriceChecker.History | backend/src/services/priceAnalyzer.js:19-26 | the 30-day history of a destination has positive prices when the stored ones are, and is no longer than the table |
| PriceChecker.HistoryIsWindowPrices | backend/src/services/priceAnalyzer.js:19-26 | the history is exactly the prices of the window's rows, newest first (`rows.map(r => r.price)`) |
| PriceChecker.LastPrice | backend/src/services/priceAnalyzer.js:194-203 | the latest stored price of a destination is positive; it is null iff the destination has no stored price |
| PriceChecker.LastPriceIsLatestRow | backend/src/services/priceAnalyzer.js:194-203 | a found last price is the price of that destination's last inserted row |
| PriceChecker.LatestRowIsLatest | backend/src/services/priceAnalyzer.js:194-203 | `ORDER BY checked_at DESC LIMIT 1`: on a chronological table no row of that destination is newer than its last inserted row |
| PriceChecker.HistoryAfterAppend | backend/src/cron/priceChecker.js:97-101 | a new observation inside the window becomes the first, newest, entry of its destination's history, ahead of the earlier ones |
| PriceChecker.LastPriceAfterAppend | backend/src/cron/priceChecker.js:97-101 | after an insert, the latest stored price of that destination is the inserted price |
| PriceChecker.Fire | backend/src/cron/priceChecker.js:124-133 | one alert: send, then save; a throwing send records neither and reports failure; a send that does not throw adds exactly one notification and one alert row with the same destination, kind and price |
| PriceChecker.Alerted | backend/src/cron/priceChecker.js:116-172 | the three alerts never touch the observations, the error count or the price source |
| PriceChecker.AlertOutcome | backend/src/cron/priceChecker.js:116-172 | analyzeAndAlert keeps stored prices positive and writes only alerts, notifications and the notifier's stream |
| PriceChecker.CheckOutcome | backend/src/cron/priceChecker.js:77-109 | one destination check, as the code orders it (insert, then analyse); it keeps the tables valid |
| PriceChecker.CheckOutcomeIntended | backend/src/cron/priceChecker.js:77-109 | the same check with the last price read before the insert; it keeps the tables valid |
| PriceChecker.SweepOutcome | backend/src/cron/priceChecker.js:58-62 | the destinations checked one after another in list order; it keeps the tables valid |
| PriceChecker.ActiveDestinations | backend/src/cron/priceChecker.js:50-54 | `WHERE is_active = 1`: a destination is swept iff it is in the table and active |
| PriceChecker.ActiveDestinationsKeepOrder | backend/src/cron/priceChecker.js:50-62 | the query keeps the table's order: it distributes over concatenation, and keeps one destination iff it is active |
| PriceChecker.StampKeepsClock | backend/src/cron/priceChecker.js:97-101 | a row stamped with the current instant keeps a chronological table chronological and no newer than the clock |
| PriceChecker.CheckKeepsOrder | backend/src/cron/priceChecker.js:97-101 | a check stamped with a clock no earlier than the stored rows keeps the table chronological and the clock no earlier than it, as written and corrected |
| PriceChecker.SweepKeepsOrder | backend/src/cron/priceChecker.js:58-101 | the same holds for a whole sweep |
| PriceChecker.FalsyQuoteChangesNothing | backend/src/cron/priceChecker.js:89-92 | a null or 0 price consumes one answer of the price source and changes nothing else: no observation, alert or notification |
| PriceChecker.TruthyQuoteAppendsOneObservation | backend/src/cron/priceChecker.js:96-101 | a truthy price appends exactly one observation with that destination, price and time |
| PriceChecker.AnalysisSeesNewObservation | backend/src/cron/priceChecker.js:101-104 | the analysis runs after the insert: its history starts with the new price, and its last price is the new price |
| PriceChecker.FireKeepsPairing | backend/src/cron/priceChecker.js:124-133 | an alert keeps alerts and notifications paired one to one, and never rewrites earlier alerts |
| PriceChecker.AlertedKeepsPairing | backend/src/cron/priceChecker.js:118-171 | the same holds for the three alerts together |
| PriceChecker.AlertsInOrder | backend/src/cron/priceChecker.js:118-171 | when sends succeed, the new alerts are exactly those whose condition holds, in the order optimal_price, price_drop, max_price_reached |
| PriceChecker.AlertedWithoutDrop | backend/src/cron/priceChecker.js:137-154 | without a drop, no price_drop alert is added |
| PriceChecker.AlertedOptimalFirst | backend/src/cron/priceChecker.js:120-134 | an optimal price whose send succeeds is the first new alert |
| PriceChecker.CheckKeepsPairing | backend/src/cron/priceChecker.js:77-109 | a whole destination check keeps alerts and notifications paired |
| PriceChecker.NoPriceDropInCheck | backend/src/cron/priceChecker.js:101-137 | as written, a destination check never adds a price_drop alert |
| PriceChecker.SinglePriceIsOptimal | backend/src/services/priceAnalyzer.js:51-89 | a history holding only the current price scores 85 and so is an optimal-price buy |
| PriceChecker.FirstObservationIsOptimal | backend/src/cron/priceChecker.js:101-134 | the first stored price of a known destination raises an optimal_price alert when its send succeeds |
| PriceChecker.DropRowIff | backend/src/cron/priceChecker.js:139-154 | a price_drop row is among the expected alerts iff a drop was detected |
| PriceChecker.IntendedDetectsDrop | backend/src/services/priceAnalyzer.js:194-209 | with the last price read before the insert, a price_drop alert is added iff the new price is at most 85 % of the previous one |
| PriceChecker.SweepStoresEveryObservation | backend/src/cron/priceChecker.js:58-101 | a sweep consumes one price answer per destination and stores exactly the truthy ones, in list order |
| PriceChecker.NoPriceDropInSweep | backend/src/cron/priceChecker.js:58-62 | as written, a whole sweep never adds a price_drop alert |
| PriceChecker.Checker.constructor | backend/src/cron/priceChecker.js:14-16 | a new checker starts from a chronological prices table, is not running and has empty alert and notification tables |
| PriceChecker.Checker.FetchLowestPrice | backend/src/cron/priceChecker.js:82-87 | one answer is consumed from the price source; an exhausted source answers as a failure |
| PriceChecker.Checker.Notify | backend/src/services/twilioService.js:23-43 | a send consumes one notifier outcome and records a notification unless it threw |
| PriceChecker.Checker.SaveAlert | backend/src/cron/priceChecker.js:180-186 | appends exactly one alert row |
| PriceChecker.Checker.Raise | backend/src/cron/priceChecker.js:124-133 | send then save, with the effect of `Fire` |
| PriceChecker.Checker.AnalyzeAndAlert | backend/src/cron/priceChecker.js:116-172 | the new state is `AlertOutcome` with the last price read from the table the method sees |
| PriceChecker.Checker.CheckDestinationPrice | backend/src/cron/priceChecker.js:77-109 | given a clock no earlier than the stored rows, the new state is `CheckOutcome` and the clock is still no earlier than every row; an exception from a send is caught and counted |
| PriceChecker.Checker.CheckAllPrices | backend/src/cron/priceChecker.js:40-71 | given a clock no earlier than the stored rows: while a sweep runs it changes nothing; otherwise the new state is the in-order sweep of the active destinations, and `isRunning` is false again at the end |
| PriceChecker.Checker.CheckSingleDestination | backend/src/cron/priceChecker.js:200-209 | an unknown id is reported (the source throws) and changes nothing; a known id is checked whatever `isRunning` and the active flag say |
| DuffelService.BuildOfferRequest | backend/src/services/duffelService.js:26-48 | one outbound slice; with a return date a second slice swaps origin and destination and departs on that date; all passengers are adults in economy |
| DuffelService.AirCanadaOffers | backend/src/services/duffelService.js:56-63 | an offer is kept iff it is owned by Air Canada or one of its segments is operated by Air Canada |
| DuffelService.AirCanadaOffersKeepOrder | backend/src/services/duffelService.js:56-63 | the filter keeps the API's order: it distributes over concatenation |
| DuffelService.TotalStops | backend/src/services/duffelService.js:72 | stops are never negative when every slice has a segment, and zero for direct flights |
| DuffelService.StopsAreSegmentsLessSlices | backend/src/services/duffelService.js:72 | stops are the number of segments minus the number of slices |
| DuffelService.DurationIgnoresMissing | backend/src/services/duffelService.js:71 | a slice without a duration adds nothing to the total |
| DuffelService.DepartureTime | backend/src/services/duffelService.js:73 | a departure time is the first segment's of the first slice; it is null iff there is no first segment, it has no departure time, or that time is the empty string |
| DuffelService.Flights | backend/src/services/duffelService.js:67-74 | one summary per offer, in order |
| DuffelService.SearchFlights | backend/src/services/duffelService.js:24-80 | null (the thrown error) iff the API call failed; otherwise the flights are exactly the summaries of the Air Canada offers |
| DuffelService.Prices | backend/src/services/duffelService.js:95 | one price per flight, in order |
| DuffelService.LowestPrice | backend/src/services/duffelService.js:87-102 | null iff the call failed or no offer is Air Canada's; otherwise the price of some Air Canada offer and no more than any other |
| DuffelService.CandidateRange | backend/src/services/duffelService.js:118-127 | exactly the days from departure − range to departure + range that are not in the past, strictly increasing |
| DuffelService.CandidateDates | backend/src/services/duffelService.js:118-127 | the loop pushes exactly the `CandidateRange` days |
| DuffelService.AltReturnDate | backend/src/services/duffelService.js:133-142 | a return date only when the search has one, keeping the original trip length |
| DuffelService.AltReturnOfOriginalDate | backend/src/services/duffelService.js:133-142 | the original departure date gets the original return date back |
| DuffelService.Entries | backend/src/services/duffelService.js:130-157 | one entry per date, in order, that records its return date and price, is available iff there is a price, and is the original date iff its date is the departure date |
| DuffelService.PriceEachDate | backend/src/services/duffelService.js:130-157 | the loop over the candidate dates builds exactly the `Entries`: one priced entry per date, in order |
| DuffelService.Insert | backend/src/services/duffelService.js:175-179 | inserting into a sorted list keeps it sorted and adds exactly that entry |
| DuffelService.SortByPrice | backend/src/services/duffelService.js:175-179 | a permutation in which available entries come first, in ascending price |
| DuffelService.FirstAvailable | backend/src/services/duffelService.js:182 | `find(r => r.available)`: the index of the first available entry, or none when none is available |
| DuffelService.Unmarked | backend/src/services/duffelService.js:184 | the list with every best-price mark cleared |
| DuffelService.SortKeepsUnmarked | backend/src/services/duffelService.js:175-179 | sorting does not create a best-price mark |
| DuffelService.MarkingTheFirstAvailable | backend/src/services/duffelService.js:182-185 | marking the first available entry of a sorted list marks exactly it, and it is a cheapest available entry |
| DuffelService.NothingAvailableNothingMarked | backend/src/services/duffelService.js:182-185 | when nothing is available, nothing is marked |
| DuffelService.SearchAlternativeDates | backend/src/services/duffelService.js:110-188 | the results are a permutation of the per-date entries, sorted available first by price, with exactly the first available entry marked best and it a cheapest one |
| DestinationController.Bound | backend/src/controllers/destinationController.js:88 | a bound parameter is never undefined and keeps any defined value |
| DestinationController.FindRow | backend/src/controllers/destinationController.js:136-137 | the existence check: the position of the first row with that id, and none iff no row has that id |
| DestinationController.NewRow | backend/src/controllers/destinationController.js:84-88 | the inserted row keeps the required fields; max_price is a truthy value or NULL; is_active is 1 |
| DestinationController.InsertBindableIff | backend/src/controllers/destinationController.js:84-88 | the INSERT of create can bind its parameters iff origin, destination, departure date and return date are not booleans and max_price is not `true` (a `false` one becomes NULL) |
| DestinationController.FalsyMaxPriceStoredAsNull | backend/src/controllers/destinationController.js:88 | `max_price \|\| null`: 0, "", null or an absent price is stored as NULL |
| DestinationController.Pushed | backend/src/controllers/destinationController.js:151 | is_active is pushed as 1 or 0 |
| DestinationController.ClausesAlignWithValues | backend/src/controllers/destinationController.js:143-151 | as many clauses as values, and as many `?` placeholders as values |
| DestinationController.PlaceholdersAppend | backend/src/controllers/destinationController.js:157-162 | placeholders of joined clause lists add up |
| DestinationController.ClausesCoverDefinedFields | backend/src/controllers/destinationController.js:146-151 | a column gets a `col = ?` clause iff its field is defined in the body |
| DestinationController.ClausesInColumnOrder | backend/src/controllers/destinationController.js:146-151 | the clauses follow the fixed column order origin … is_active |
| DestinationController.ApplySet | backend/src/controllers/destinationController.js:160-165 | the SET list binds one parameter per placeholder and leaves the id of the row alone |
| DestinationController.Patch | backend/src/controllers/destinationController.js:146-158 | each column takes the body's bound value when the field is defined and keeps the old value otherwise; updated_at becomes now |
| DestinationController.ApplySetAppend | backend/src/controllers/destinationController.js:157-162 | running two clause lists is running one after the other |
| DestinationController.GetAfterSet | backend/src/controllers/destinationController.js:162 | writing a column changes that column only |
| DestinationController.OneClauseWritesItsField | backend/src/controllers/destinationController.js:146-151 | one `if` writes its field when defined and nothing otherwise |
| DestinationController.ClausesWriteTheirFields | backend/src/controllers/destinationController.js:146-165 | the clauses, bound to their values, write exactly the defined fields |
| DestinationController.AllColumnsDistinctAndRanked | backend/src/controllers/destinationController.js:146-151 | the six columns appear once each, in order |
| DestinationController.PatchRows | backend/src/controllers/destinationController.js:160-165 | the matching rows are patched and all others kept |
| DestinationController.RowsEqualByColumns | backend/src/controllers/destinationController.js:160-165 | rows agreeing on id, updated_at and every column are equal |
| DestinationController.UpdateStatementPatchesRow | backend/src/controllers/destinationController.js:157-165 | on one row, the SET list with updated_at appended yields the patched row and leaves exactly the id for the WHERE clause |
| DestinationController.UpdateStatementPatches | backend/src/controllers/destinationController.js:157-165 | with updated_at pushed without a value and the id pushed last, the placeholders match the values and the statement patches exactly the row with that id |
| DestinationController.BindableAppend | backend/src/controllers/destinationController.js:157-162 | the parameters of a joined list can be bound iff each part's can |
| DestinationController.ValuesBindableIff | backend/src/controllers/destinationController.js:146-151 | the pushed values can be bound iff no listed column other than is_active (pushed as 1 or 0) holds a boolean |
| DestinationController.UpdateBindableIff | backend/src/controllers/destinationController.js:146-165 | the UPDATE of update, with the id appended, can bind its parameters iff the body holds a boolean in no field other than is_active |
| DestinationController.NoClausesIffNoField | backend/src/controllers/destinationController.js:153-155 | no clause iff no field of the body is defined |
| DestinationController.BuildUpdate | backend/src/controllers/destinationController.js:143-151 | the push sequence builds exactly the clauses and values of the defined fields |
| DestinationController.DestinationStore.constructor | backend/src/controllers/destinationController.js:84-88 | the store starts empty, with ids from 1 |
| DestinationController.DestinationStore.Create | backend/src/controllers/destinationController.js:71-124 | 400 and no write without origin, destination or departure date; otherwise 500 and no write when an INSERT parameter is a boolean (better-sqlite3 refuses it and the outer `catch` answers); otherwise 201, one row inserted and the initial price stored only when truthy, so a missing price does not fail creation |
| DestinationController.DestinationStore.Update | backend/src/controllers/destinationController.js:130-179 | 404 and no write for an unknown id; 400 and no write when no field is defined; 500 and no write when a field other than is_active is a boolean (better-sqlite3 refuses to bind it and the `catch` answers); otherwise 200 with that row patched |
| DestinationCard.BadgeFor | frontend/src/components/DestinationCard.js:29-33 | each badge holds iff the percentage below average is in its band (≥20, ≥10, ≥0, ≥−10, below) |
| DestinationCard.BadgeMonotone | frontend/src/components/DestinationCard.js:29-33 | the badge score never falls as the percentage rises |
| DestinationCard.GetQualityScore | frontend/src/components/DestinationCard.js:25-34 | null iff the latest or average price is falsy; otherwise the band of the percentage below average |
| DestinationCard.GetRecommendation | frontend/src/components/DestinationCard.js:39-52 | null iff a price is falsy; urgent iff pct ≥ 15, or under budget with pct ≥ 10; otherwise 'Bon moment' iff pct ≥ 5 and 'Attendre' iff pct < 5 |
| DestinationCard.RecommendationAgreesWithBadge | frontend/src/components/DestinationCard.js:25-52 | 'Acheter maintenant' comes with a badge of at least 8, 'Attendre' with at most 6 |
| DestinationCard.BuyNowThreshold | frontend/src/components/DestinationCard.js:42-45 | 15 % below average means a price at most 0.85 of the average |
| DestinationCard.Savings | frontend/src/components/DestinationCard.js:104-111 | savings are shown iff the price is strictly under a set budget, and then they are positive and add back up to the budget |
| DestinationCard.PriceAtBudgetShowsNoSavings | frontend/src/components/DestinationCard.js:107-109 | a price equal to the budget shows no savings, although the backend's `<=` counts it as reached |
| AddDestinationForm.HandleChange | frontend/src/components/AddDestinationForm.js:27-33 | only the named field changes: it becomes `checked` for a checkbox and the value otherwise |
| AddDestinationForm.PickSuggestion | frontend/src/components/AddDestinationForm.js:103 | a suggestion sets the destination code and nothing else |
| AddDestinationForm.HandleSubmit | frontend/src/components/AddDestinationForm.js:35-57 | rejected for a missing destination or departure; otherwise rejected for a departure before now; submitted iff also no present return date on or before departure; a submitted form is the unchanged form data |
| AddDestinationForm.SubmittedDatesAreOrdered | frontend/src/components/AddDestinationForm.js:45-56 | a submitted form departs no earlier than now and returns strictly after it departs |
| AddDestinationForm.InitialFormIsRejected | frontend/src/components/AddDestinationForm.js:5-42 | the initial state (origin YUL, alerts on, destination empty) cannot be submitted |
| AddDestinationForm.SameDayReturnRejected | frontend/src/components/AddDestinationForm.js:51-54 | a return on the departure day is rejected |
| AddDestinationForm.DepartureTodayRejectedAfterMidnight | frontend/src/components/AddDestinationForm.js:45-48 | a departure date before the current instant, including today after midnight, is rejected |
| AddDestinationForm.ChangingOptionalFieldsKeepsRequired | frontend/src/components/AddDestinationForm.js:27-42 | editing any other field does not change whether the required fields are filled |

## Left out

- SQL text, the `execQuery` shim and the database setup (`backend/src/db/database.js`, `backend/src/db/init.js`): the tables are in-memory sequences. `database/schema.sql` is not part of this model. The model therefore assumes that `is_active` defaults to 1 and that an undefined parameter is bound as NULL. Of better-sqlite3's binding rules only one is modelled: a boolean parameter makes the statement throw, which create and update answer with 500. Request bodies hold no objects or arrays, so the other values it refuses do not arise.
- The Duffel HTTP call, the Twilio client and its message texts, the Express routes and the frontend API client are network I/O. The model replaces them with scripted answer streams and a search-response parameter. `twilioService.js` is modelled only as a send that may throw.
- Cron scheduling, startup triggers and the `sleep` throttles are wall-clock timing. Only the lock semantics of `isRunning` are modelled. The lock turns a concurrent sweep away: the cron tick of backend/src/server.js:34-39, and the tick and startup call of `start()` (backend/src/cron/priceChecker.js:26-34, which backend/src/server.js does not call), all go through `checkAllPrices`, whose `isRunning` test returns at once while a sweep runs. What can interleave at an `await` is the Express create, update and delete handlers: they can change or delete a destination row between the sweep's query and its `shouldBuyNow` lookup. That interleaving is out of scope; the model runs each operation to completion. `checkSingleDestination` ignores the lock but has no caller among the routes, and the frontend's check requests (`/destinations/:id/check-price`, `/check-all-prices`) have no route in backend/src/server.js.
- Float formatting (`toFixed`), `parseFloat`, and the message and analysis strings are presentation. Prices are exact reals, so rounding of binary floating point is not modelled.
- The unused standard deviation (`Math.sqrt`, backend/src/services/priceAnalyzer.js:42-45) is left out because nothing reads it.
- The failure branch of `checkAllPrices`' own `try` (the destination query failing) is not modelled: the in-memory query cannot fail. Its `finally` behaviour is still covered, since `isRunning` is cleared on the only exit.
- DuffelService.SearchAlternativeDates: its `catch` branch (backend/src/services/duffelService.js:162-171) is unreachable for valid dates, the only dates of the model: `getLowestPrice` never throws, and only an invalid `returnDate` (say "abc") makes `toISOString` throw a RangeError at line 141. The model has no such branch.
- DuffelService.SearchAlternativeDates: under the UTC-server convention above, the local-time `setDate` (line 121) and the UTC `toISOString` (line 125) agree. In another zone a daylight-saving change can repeat or skip a candidate date; that is not modelled. The per-date prices come from a function parameter standing for `getLowestPrice`.
- Common.DaysUntil: under the same convention, `parseISO` (backend/src/services/priceAnalyzer.js:164-167) gives midnight of the date's day. In another zone it gives local midnight, which can shift `differenceInDays` by one; that is not modelled.
- DuffelService.SortByPrice: the source comparator answers 1 for two unavailable entries in either order, so `Array.prototype.sort` may order them in any way. The model is one admissible order (a stable insertion sort), and its contract states only what every order shares.
- Slice durations: Duffel's slice duration is an ISO-8601 string that the source adds with `+`. The model treats it as a number of minutes, so string concatenation is not modelled.
- DestinationController: `getAll`, `getById`, `delete` and `getPriceHistory` perform no logic beyond SQL and are not modelled. Comparing the route id (a string) with the integer column relies on SQLite affinity, which is modelled as numeric equality.
- AddDestinationForm: date inputs hold day numbers or nothing. An `<input type="date">` holds only "" or a valid yyyy-mm-dd date, so a non-empty invalid date string, which would be truthy, does not arise and is not modelled. The HTML `pattern`, `maxLength` and `required` attributes are browser checks and are not modelled.
- PriceChecker.Checker.Notify: the Twilio message templates and the phone numbers are not modelled, only whether the send threw.
- Presentation-only components (`Dashboard.js`, `StatsOverview.js`, `PriceChart.js`, `DateAlternatives.js`) are left out.

## Findings

| source | as written | input that shows it | evidently intended | confidence | as-written member | corrected member |
|---|---|---|---|---|---|---|
| backend/src/cron/priceChecker.js:101-137 | `checkDestinationPrice` inserts the new price (line 101), then `detectPriceDrop` (line 137; backend/src/services/priceAnalyzer.js:194-209) reads "the last stored price", which is that same price, so the drop is always 0 and `price_drop` never fires | a destination whose last stored price is 1000 gets a fare of 500: no price_drop alert is raised | compare with the latest price stored before this check, so a fall of 15 % or more raises `price_drop` | not executed | PriceChecker.NoPriceDropInCheck | PriceChecker.IntendedDetectsDrop |

The as-written behaviour is `PriceChecker.CheckOutcome`. `PriceChecker.NoPriceDropInCheck` proves that it never adds a price_drop alert, and `PriceChecker.NoPriceDropInSweep` extends this to a whole sweep. The corrected step is `PriceChecker.CheckOutcomeIntended`, which reads the last price before the insert; `PriceChecker.IntendedDetectsDrop` proves that it raises the alert exactly on a fall of 15 % or more. The class `PriceChecker.Checker` models the sweep as the code runs it, so it keeps the as-written order. The finding rests on the conventions about the prices table above: the new row is the newest one because the clock does not run backwards, and a tie in `checked_at` with an earlier row of the same destination goes to the later insert.
