# Flight tracker core, in Dafny

This project models the core of a small flight-tracking application.

The backend keeps an in-memory registry of flights. Each flight is keyed by
its normalised flight number: upper-cased, then trimmed. Each record has a
lifecycle status (`AWAITING`, `DEPARTED`, `ARRIVED`) and the actual
departure and arrival times.

Event times come from two simulated providers, FlightStats and FlightAware.
FlightStats is asked first. An aggregator takes the first usable answer, or
fails with one message that names both failures.

A refresh walks every tracked flight:
- an arrived flight is passed through untouched;
- any other flight is re-fetched and merged forward: the status never moves
  backwards, and a time once set is never overwritten.

The browser keeps its own list of flights, keyed on the flight number, and
validates the number a user types before submitting it.

Modules, one per source file (plus three shared ones):

- `Wrappers`: `Option` and `Result`.
- `Ascii`: `toUpperCase` and `trim` over ASCII. It also proves that the two
  orders of applying them agree, because the backend upper-cases first and
  the form trims first.
- `FlightTypes`: the shared records (`Flight`, `FlightStatus`, `FlightData`,
  `ProviderResult`).
- `Providers`: `backend/src/services/flightProvider.ts`. The random draws and
  the current time are parameters.
- `Tracking`: `backend/src/services/flightService.ts`. The status rules, the
  aggregator and the one-flight refresh are functions. The service is the
  class `FlightService` over a `map<string, Flight>`, and its methods are
  proved against those functions.
- `LocalFlights`: the list updaters of `frontend/src/hooks/useLocalStorage.ts`.
- `Form`: the submit check of `frontend/src/components/FlightForm.tsx`, plus
  the form's state as the class `FlightForm`.

Provider answers reach the service as parameters. Each answer is a
`Settled` value, the outcome of `Promise.allSettled`: either fulfilled with
a provider result, or rejected with a reason. A refresh receives one such
pair of answers per flight number.

## Model

| member | source | states |
|---|---|---|
| Ascii.UpperCommutesWithTrim | frontend/src/components/FlightForm.tsx:20 | over ASCII, trimming then upper-casing (the form) gives the same string as upper-casing then trimming (the server) |
| Ascii.TrimIdempotent | backend/src/services/flightService.ts:8 | trimming an already trimmed string changes nothing |
| Ascii.ToUpperIdempotent | backend/src/services/flightService.ts:8 | upper-casing an already upper-cased string changes nothing |
| Ascii.ToUpper | backend/src/services/flightService.ts:8 | the result has the input's length, and each character is upper-cased on its own: lower-case ASCII letters become capitals, everything else is kept |
| Ascii.Trim | backend/src/services/flightService.ts:8 | the result is the slice of the input between its leading and its trailing whitespace (everything before and after it is whitespace), and it neither starts nor ends with whitespace |
| Ascii.UpperKeepsPadding | backend/src/services/flightService.ts:8 | upper-casing leaves whitespace around a string as it is |
| Ascii.PaddingIsTrimmed | backend/src/services/flightService.ts:8 | whitespace added around a string does not change what trimming gives |
| Tracking.NormalizeKey | backend/src/services/flightService.ts:8 | the key is no longer than the input and has no whitespace at either end |
| Tracking.NormalizeKeyIsUpperCase | backend/src/services/flightService.ts:8 | a key contains no lower-case letter |
| Tracking.NormalizeKeyIdempotent | backend/src/services/flightService.ts:8 | normalising a key again leaves it unchanged |
| Tracking.NormalizedKeyIsFixedPoint | backend/src/services/flightService.ts:8-16 | a string is a storable key (non-empty, upper-case, trimmed) exactly when it is a non-empty fixed point of the normalisation |
| Tracking.NormalizeKeyGivesKey | backend/src/services/flightService.ts:8-14 | every non-empty normalised input is a storable key |
| Tracking.NormalizeKeyIgnoresCaseAndPadding | backend/src/services/flightService.ts:8 | any input whose upper case equals the flight number's, surrounded by any whitespace (such as " aa123 " for "AA123"), gets the same key as the flight number |
| Tracking.DetermineFlightStatus | backend/src/services/flightService.ts:127-137 | arrived iff both times are present; departed iff only the departure is present; awaiting iff there is no departure, including an arrival without a departure |
| Tracking.StatusCountsEvents | backend/src/services/flightService.ts:127-137 | when there is no arrival without a departure, the status's position in the order equals the number of events observed |
| Tracking.GetUpdatedStatus | backend/src/services/flightService.ts:118-125 | the result is one of the two statuses, and it is the later of them in the order AWAITING < DEPARTED < ARRIVED |
| Tracking.MergeIsJoin | backend/src/services/flightService.ts:118-125 | the status merge never goes below the current status, and it is idempotent, commutative and associative |
| Tracking.GetFlightDataFromProviders | backend/src/services/flightService.ts:87-116 | succeeds iff either answer is usable; FlightStats' data wins over FlightAware's; on failure the message is "Unable to retrieve flight data for <n> from any provider: FlightStats: <reason>, FlightAware: <reason>" |
| Tracking.AggregatorPicksFirstUsable | backend/src/services/flightService.ts:93-100 | the aggregator agrees with a first-usable search over the answers in priority order, both in whether it succeeds and in the value it returns |
| Tracking.ProviderFailures | backend/src/services/flightService.ts:102-113 | one entry per failed answer, "FlightStats: <reason>" before "FlightAware: <reason>" |
| Tracking.Join | backend/src/services/flightService.ts:115 | `join`: the first part starts the result, the last part ends it, and two parts are joined with the separator between them |
| Tracking.AggregateFailureMessage | backend/src/services/flightService.ts:102-115 | the message starts with "Unable to retrieve flight data for <n> from any provider: "; when both answers failed, it continues "FlightStats: <reason>, FlightAware: <reason>" |
| Tracking.AggregatedProviderDataIsPlausible | backend/src/services/flightService.ts:87-100 | when both providers actually ran, each reading its own clock, aggregated data has no arrival without departure, has the arrival after the departure, and has both times before the later of the two clock readings |
| Tracking.ProviderAnswersHaveNoArrivalWithoutDeparture | backend/src/services/flightProvider.ts:41-63 | answers computed by the two providers, at any draws and times, have no arrival without departure, so the consistency guarantees of add and refresh apply to them |
| Tracking.NewFlight | backend/src/services/flightService.ts:20-30 | the new record carries the key and the fetched times, its status is the classification of those times, createdAt == updatedAt == now, and it is consistent when the data has no arrival without departure |
| Tracking.MergeFlight | backend/src/services/flightService.ts:64-70 | the merged record keeps the flight number and createdAt, takes `now` as updatedAt, gets the later of the two statuses, keeps each time that was set, and takes each unset time from the new data |
| Tracking.RefreshOutcomeCases | backend/src/services/flightService.ts:53-79 | one flight's refresh: an arrived flight is skipped and kept as it is; otherwise a failed aggregation is reported with the aggregator's message; otherwise the record is updated |
| Tracking.StoredAfter | backend/src/services/flightService.ts:55-73 | only an update is written back to the registry; a skipped or failed flight keeps its record |
| Tracking.ArrivedFlightIsNotFetched | backend/src/services/flightService.ts:55-58 | an arrived flight's refresh outcome does not depend on the provider answers or the clock; the flight is passed through unchanged |
| Tracking.RefreshIsForwardOnlyAndSticky | backend/src/services/flightService.ts:63-70 | after a refresh: the status is not earlier; a time that was set is kept; the flight number and createdAt are unchanged |
| Tracking.RefreshFillsUnsetTimes | backend/src/services/flightService.ts:60-70 | a successful refresh of a flight that has not arrived fills each unset time from the fetched data, merges the status and stamps updatedAt |
| Tracking.MergePreservesConsistency | backend/src/services/flightService.ts:61-68 | merging data with no arrival without departure into a consistent record gives a record whose status is the classification of its times |
| Tracking.RefreshPreservesConsistency | backend/src/services/flightService.ts:55-73 | a refresh keeps a consistent record consistent, given usable answers with no arrival without departure |
| Tracking.StickyMergeCanOrderArrivalBeforeDeparture | backend/src/services/flightService.ts:67-68 | a departure kept from an earlier refresh plus an arrival taken from a later answer can leave the arrival before the departure |
| Tracking.RefreshKeepsFlightNumber | backend/src/services/flightService.ts:64-65 | a refreshed record keeps the flight number of the record it replaces |
| Tracking.FlightService.constructor | backend/src/services/flightService.ts:5 | the registry starts empty |
| Tracking.FlightService.AddFlightToTracking | backend/src/services/flightService.ts:7-34 | an empty key, an already tracked key or an aggregator failure each gives its error and leaves the registry unchanged; otherwise the new record is stored under the key, the count grows by one, and every key stays normalised |
| Tracking.FlightService.GetAllFlights | backend/src/services/flightService.ts:36-38 | returns each stored record exactly once: the same length, only stored records, every record present, no flight number twice |
| Tracking.FlightService.RemoveFlightFromTracking | backend/src/services/flightService.ts:40-43 | returns true iff the normalised key was tracked; afterwards the registry is the old one without that key |
| Tracking.FlightService.RefreshAllFlights | backend/src/services/flightService.ts:45-85 | the set of keys is unchanged, and each record becomes what its one-flight refresh stores, with that flight's own answers and clock reading; every old key is reported exactly once, either as an updated flight or as an error; no status moves backwards; consistency is kept |
| Tracking.FlightService.GetTrackedFlightsCount | backend/src/services/flightService.ts:139-141 | the count is the number of tracked keys |
| Tracking.FlightService.ClearAllFlights | backend/src/services/flightService.ts:143-145 | the registry becomes empty |
| Providers.TruncateTowardZero | backend/src/services/flightProvider.ts:38 | a fractional millisecond count is truncated toward zero: down for non-negative values, up for negative ones, by less than one |
| Providers.MaintenanceFires | backend/src/services/flightProvider.ts:29 | for a draw in [0, 1), maintenance fires exactly when the draw is below the configured probability; an absent probability acts as 0 |
| Providers.ScheduledDeparture | backend/src/services/flightProvider.ts:37-38 | for an offset draw in [0, 1), the scheduled departure lies within 24 hours either side of now |
| Providers.FlightDurationHours | backend/src/services/flightProvider.ts:39 | for a duration draw in [0, 1] and an ordered range, the drawn duration lies within the configured range |
| Providers.EstimatedArrival | backend/src/services/flightProvider.ts:48-50 | the estimate is at least half an hour after the departure, whatever duration was drawn |
| Providers.GetFlightData | backend/src/services/flightProvider.ts:18-64 | a not-found draw gives the not-found error, which is checked first; then a maintenance draw gives the maintenance error; there is an error iff one of these fires; data is plausible at `now`; a departure is reported iff the scheduled departure is past, and it equals the scheduled departure |
| Providers.ArrivalReportedIffEstimatePassed | backend/src/services/flightProvider.ts:53-55 | once departed, the arrival is reported exactly when the estimated arrival is before `now` |
| Providers.FlightAwareNeverInMaintenance | backend/src/services/flightProvider.ts:72-77 | FlightAware has no maintenance probability, so its only error is "not found" |
| Providers.FlightStatsReportsMaintenance | backend/src/services/flightProvider.ts:79-85 | for every not-found draw at or above 0.03 and every maintenance draw below 0.05, FlightStats answers with the maintenance error |
| Providers.ProviderConfigurations | backend/src/services/flightProvider.ts:72-85 | the FlightAware and FlightStats configurations: not-found probabilities in [0, 1), positive and ordered delay ranges, flight durations of at least an hour, and a maintenance probability in (0, 1) for FlightStats only |
| Providers.ConfiguredDurationsNeedNoFloor | backend/src/services/flightProvider.ts:39-48 | for both configured providers the drawn duration is at least an hour, so the half-hour floor never applies |
| LocalFlights.FindIndex | frontend/src/hooks/useLocalStorage.ts:28 | the first index holding the flight number, or -1 exactly when no entry holds it |
| LocalFlights.AddFlight | frontend/src/hooks/useLocalStorage.ts:26-40 | the first entry with the same number is replaced in place, with the others untouched; if there is none, the flight is appended after the unchanged list |
| LocalFlights.AddFlightKeepsNumbersUnique | frontend/src/hooks/useLocalStorage.ts:26-40 | adding keeps flight numbers unique |
| LocalFlights.AddFlightIdempotent | frontend/src/hooks/useLocalStorage.ts:26-40 | adding the same record twice equals adding it once |
| LocalFlights.RemoveFlight | frontend/src/hooks/useLocalStorage.ts:42-46 | no entry with the number remains, every other entry is kept, and nothing new appears |
| LocalFlights.RemoveFlightKeepsEveryCopy | frontend/src/hooks/useLocalStorage.ts:42-46 | the result holds no entry with the number, and every other entry exactly as many times as the input does |
| LocalFlights.RemoveFlightKeepsOrder | frontend/src/hooks/useLocalStorage.ts:42-46 | the remaining entries keep their original relative order |
| LocalFlights.RemoveAbsentFlightIsIdentity | frontend/src/hooks/useLocalStorage.ts:42-46 | removing a number no entry has leaves the list unchanged |
| LocalFlights.RemoveAfterAdd | frontend/src/hooks/useLocalStorage.ts:26-46 | adding a flight and then removing its number gives the same list as removing the number alone |
| LocalFlights.UpdateFlights | frontend/src/hooks/useLocalStorage.ts:48-50 | the list is replaced by the given one |
| LocalFlights.ClearAllFlights | frontend/src/hooks/useLocalStorage.ts:52-59 | the list becomes empty |
| Form.ValidIffMatchesPattern | frontend/src/components/FlightForm.tsx:27 | the letter-run check accepts exactly the strings matched by `^[A-Z]{2,3}\d{1,4}$` |
| Form.NormalizeInput | frontend/src/components/FlightForm.tsx:20 | the submitted value equals the key the server derives from the same input, and has no lower-case letter |
| Form.IsValidFlightNumber | frontend/src/components/FlightForm.tsx:27 | a number that passes the check has 3 to 7 characters, each a capital letter or a digit |
| Form.ValidateSubmission | frontend/src/components/FlightForm.tsx:16-30 | accepts iff the trimmed, upper-cased input matches the pattern, and then yields that normalised input; blank input gives the required-field error; any other rejection gives the format error |
| Form.AcceptedNumberShape | frontend/src/components/FlightForm.tsx:27 | an accepted number has 3 to 7 characters, none of them whitespace |
| Form.AcceptedNumberIsRegistryKey | frontend/src/components/FlightForm.tsx:20-32 | an accepted number is already a registry key: the server's normalisation leaves it unchanged |
| Form.FlightForm.constructor | frontend/src/components/FlightForm.tsx:11-14 | the form starts with an empty input and no error |
| Form.FlightForm.HandleSubmit | frontend/src/components/FlightForm.tsx:16-34 | on acceptance, the normalised number is submitted and the input and error are cleared; on rejection, the error is shown and the input is kept |
| Form.FlightForm.HandleChange | frontend/src/components/FlightForm.tsx:36-40 | the input becomes the upper-cased value and the error is cleared |

## Left out

- Concurrency: `refreshAllFlights` runs its per-flight work as concurrent promises. Here it is a sequential loop over a snapshot of the keys. The order of entries in the two result lists is not modelled. Neither is a remove that interleaves with a refresh; the source would re-insert the removed flight when its fetch completes.
- Tracking.FlightService.AddFlightToTracking: the add is atomic. In the source, the aggregator is awaited (flightService.ts line 18) between the duplicate check (line 14) and the store (line 32). So two concurrent adds of one key can both succeed, with the second overwriting the first. An add that interleaves with `clearAllFlights` re-inserts its flight. The model promises neither outcome.
- Tracking.FlightService.GetAllFlights: the result is stated as a set of records with no repeats. The map's insertion order, which `Array.from` follows, is not modelled.
- Randomness and the clock: `Math.random()` draws and `new Date()` are parameters (`Draws` and `now`). The service takes the provider answers as parameters, and the refresh takes an answer pair and a clock reading per flight number, each flight reading the clock after its own fetch.
- `simulateNetworkDelay` and `networkDelayRange`: timing only, with no effect on any answer. The delay range is kept in the configuration but unused.
- Timestamps are integer milliseconds. The ISO-8601 strings the service stores and compares are not modelled.
- Probabilities, offsets and durations are exact reals, not IEEE doubles. The truncation a `Date` applies to a fractional millisecond count is modelled.
- Strings: trimming and upper-casing cover ASCII only. Non-ASCII whitespace such as U+00A0 and U+FEFF is not trimmed, and non-ASCII letters are not upper-cased.
- Tracking.GetFlightDataFromProviders: a rejected provider call contributes its reason as a string. JavaScript's template stringification of an `Error` object ("Error: …") is not modelled.
- Tracking.FlightService.RefreshAllFlights: the catch branch's fallback text "Unknown error occurred", used for thrown values that are not `Error`, cannot arise here, because the only failure is the aggregator's message.
- Tracking.FlightService.RefreshAllFlights: consistency of the stored records is proved only when the usable answers have no arrival without a departure. Tracking.StickyMergeCanOrderArrivalBeforeDeparture shows that the arrival can still end up before the departure.
- The HTTP routes, the React components other than the form's submit and change handlers, the rendering, and the `localStorage` reads and writes of the hook (including its error logging) are not part of this model.
