/** The backend flight registry: the status rules, the provider aggregator,
    and the service object that keeps one record per normalised flight
    number. */
module Tracking {
  import opened Wrappers
  import opened Ascii
  import opened FlightTypes
  import Providers

  // ---------------------------------------------------------------------
  // Normalisation

  /** The registry key for a raw flight number: upper-cased, then trimmed. */
  function NormalizeKey(flightNumber: string): (key: string)
    ensures |key| <= |flightNumber|
    ensures key == [] || (!IsWhitespace(key[0]) && !IsWhitespace(key[|key| - 1]))
  {
    Trim(ToUpper(flightNumber))
  }

  /** A key has no lower-case letters left. */
  lemma NormalizeKeyIsUpperCase(flightNumber: string)
    ensures ToUpper(NormalizeKey(flightNumber)) == NormalizeKey(flightNumber)
  {
    UpperCommutesWithTrim(ToUpper(flightNumber));
    ToUpperIdempotent(flightNumber);
  }

  /** Normalising a key again leaves it as it is, so `add("aa123")`,
      `add(" AA123 ")` and `add("AA123")` all use the key of the last. */
  lemma NormalizeKeyIdempotent(flightNumber: string)
    ensures NormalizeKey(NormalizeKey(flightNumber)) == NormalizeKey(flightNumber)
  {
    NormalizeKeyIsUpperCase(flightNumber);
    TrimIdempotent(ToUpper(flightNumber));
  }

  /** What a registry key looks like: non-empty, no lower-case letter, and
      no whitespace at either end. */
  predicate IsNormalizedKey(key: string) {
    && key != []
    && !IsWhitespace(key[0]) && !IsWhitespace(key[|key| - 1])
    && forall i :: 0 <= i < |key| ==> !IsLower(key[i])
  }

  /** The keys `addFlightToTracking` can store are exactly the non-empty
      fixed points of the normalisation. */
  lemma NormalizedKeyIsFixedPoint(key: string)
    ensures IsNormalizedKey(key) <==> key != [] && NormalizeKey(key) == key
  {
    if IsNormalizedKey(key) {
      assert ToUpper(key) == key;
      TrimStartOfTrimmed(key);
      TrimEndOfTrimmed(key);
    }
    if key != [] && NormalizeKey(key) == key {
      NormalizeKeyIsUpperCase(key);
      assert forall i :: 0 <= i < |key| ==> key[i] == ToUpper(key)[i];
    }
  }

  /** Every non-empty normalised flight number is a registry key. */
  lemma NormalizeKeyGivesKey(flightNumber: string)
    ensures NormalizeKey(flightNumber) != [] ==> IsNormalizedKey(NormalizeKey(flightNumber))
  {
    NormalizeKeyIdempotent(flightNumber);
    NormalizedKeyIsFixedPoint(NormalizeKey(flightNumber));
  }

  /** Inputs that differ only in letter case and in surrounding whitespace
      get the same key: `" aa123 "`, `"Aa123"` and `"AA123"` share one. */
  lemma NormalizeKeyIgnoresCaseAndPadding(flightNumber: string, other: string, padLeft: string, padRight: string)
    requires ToUpper(other) == ToUpper(flightNumber)
    requires forall i :: 0 <= i < |padLeft| ==> IsWhitespace(padLeft[i])
    requires forall i :: 0 <= i < |padRight| ==> IsWhitespace(padRight[i])
    ensures NormalizeKey(padLeft + other + padRight) == NormalizeKey(flightNumber)
  {
    UpperKeepsPadding(padLeft, other, padRight);
    PaddingIsTrimmed(padLeft, ToUpper(other), padRight);
  }

  // ---------------------------------------------------------------------
  // Status rules

  /** Position of a status in the order `AWAITING < DEPARTED < ARRIVED`. */
  function Rank(s: FlightStatus): nat {
    match s
    case Awaiting => 0
    case Departed => 1
    case Arrived => 2
  }

  function Max(a: nat, b: nat): nat {
    if a < b then b else a
  }

  /** `determineFlightStatus`: both times present means arrived, a
      departure alone means departed, and no departure means awaiting, an
      arrival without departure included. */
  function DetermineFlightStatus(d: FlightData): (s: FlightStatus)
    ensures s == Arrived <==> d.actualDepartureTime.Some? && d.actualArrivalTime.Some?
    ensures s == Departed <==> d.actualDepartureTime.Some? && d.actualArrivalTime.None?
    ensures s == Awaiting <==> d.actualDepartureTime.None?
  {
    if d.actualDepartureTime.Some? && d.actualArrivalTime.Some? then Arrived
    else if d.actualDepartureTime.Some? && d.actualArrivalTime.None? then Departed
    else Awaiting
  }

  /** How many of the two events have been observed. */
  function EventCount(d: FlightData): nat {
    (if d.actualDepartureTime.Some? then 1 else 0) + (if d.actualArrivalTime.Some? then 1 else 0)
  }

  /** For data with no arrival before a departure, the status's position in
      the order is the number of events observed. */
  lemma StatusCountsEvents(d: FlightData)
    requires ArrivalNeedsDeparture(d)
    ensures Rank(DetermineFlightStatus(d)) == EventCount(d)
  {
  }

  /** `getUpdatedStatus`: the later of the two statuses, so a refresh never
      moves a flight backwards. */
  function GetUpdatedStatus(current: FlightStatus, next: FlightStatus): (s: FlightStatus)
    ensures Rank(s) == Max(Rank(current), Rank(next))
    ensures s == current || s == next
  {
    if Rank(next) > Rank(current) then next else current
  }

  /** The merge is the join of the order: never below the current status,
      idempotent, commutative and associative. */
  lemma MergeIsJoin(a: FlightStatus, b: FlightStatus, c: FlightStatus)
    ensures Rank(GetUpdatedStatus(a, b)) >= Rank(a)
    ensures GetUpdatedStatus(a, a) == a
    ensures GetUpdatedStatus(a, b) == GetUpdatedStatus(b, a)
    ensures GetUpdatedStatus(GetUpdatedStatus(a, b), c) == GetUpdatedStatus(a, GetUpdatedStatus(b, c))
  {
  }

  /** A stored record is consistent when it has no arrival without a
      departure and its status is the classification of its times. */
  predicate Consistent(f: Flight) {
    ArrivalNeedsDeparture(f.Times()) && f.status == DetermineFlightStatus(f.Times())
  }

  // ---------------------------------------------------------------------
  // Provider aggregator

  /** How a provider call settled: `Promise.allSettled`'s fulfilled or
      rejected outcome. */
  datatype Settled = Fulfilled(value: ProviderResult) | Rejected(reason: string)

  /** The two settled answers for one flight, in priority order. */
  datatype Responses = Responses(flightStats: Settled, flightAware: Settled)

  /** An answer the aggregator can use: fulfilled and not a logical error. */
  predicate Usable(s: Settled) {
    s.Fulfilled? && s.value.ProviderData?
  }

  /** The message a failed answer contributes. */
  function FailureReason(s: Settled): string {
    match s
    case Rejected(reason) => reason
    case Fulfilled(ProviderError(error)) => error
    case Fulfilled(ProviderData(_)) => ""
  }

  /** The failure entries, `"<name>: <reason>"`, for the answers that failed,
      FlightStats first. */
  function ProviderFailures(responses: Responses): (failures: seq<string>)
    ensures |failures| == (if Usable(responses.flightStats) then 0 else 1) + (if Usable(responses.flightAware) then 0 else 1)
    ensures !Usable(responses.flightStats) ==> failures[0] == "FlightStats: " + FailureReason(responses.flightStats)
    ensures !Usable(responses.flightAware) ==> failures[|failures| - 1] == "FlightAware: " + FailureReason(responses.flightAware)
  {
    (if Usable(responses.flightStats) then [] else ["FlightStats: " + FailureReason(responses.flightStats)])
    + (if Usable(responses.flightAware) then [] else ["FlightAware: " + FailureReason(responses.flightAware)])
  }

  /** `parts.join(separator)`: the parts in order with the separator
      between neighbours. */
  function Join(parts: seq<string>, separator: string): (joined: string)
    ensures parts == [] ==> joined == ""
    ensures parts != [] ==> |parts[0]| <= |joined| && joined[..|parts[0]|] == parts[0]
    ensures parts != [] ==> var last := parts[|parts| - 1];
              |last| <= |joined| && joined[|joined| - |last|..] == last
    ensures |parts| == 2 ==> joined == parts[0] + separator + parts[1]
  {
    if |parts| == 0 then ""
    else if |parts| == 1 then parts[0]
    else
      var rest := Join(parts[1..], separator);
      assert parts[1..][|parts[1..]| - 1] == parts[|parts| - 1];
      assert |parts| == 2 ==> rest == parts[1];
      parts[0] + separator + rest
  }

  function AggregateFailurePrefix(flightNumber: string): string {
    "Unable to retrieve flight data for " + flightNumber + " from any provider: "
  }

  /** The aggregated error: the flight, then the failure entries joined by
      `", "`. When neither provider gave usable data it names FlightStats'
      reason, then FlightAware's. */
  function AggregateFailureMessage(flightNumber: string, responses: Responses): (message: string)
    ensures AggregateFailurePrefix(flightNumber) <= message
    ensures !Usable(responses.flightStats) && !Usable(responses.flightAware) ==>
              message == AggregateFailurePrefix(flightNumber)
                + "FlightStats: " + FailureReason(responses.flightStats)
                + ", " + "FlightAware: " + FailureReason(responses.flightAware)
  {
    AggregateFailurePrefix(flightNumber) + Join(ProviderFailures(responses), ", ")
  }

  const EmptyFlightNumberMessage: string := "Flight number cannot be empty"

  function AlreadyTrackedMessage(key: string): string {
    "Flight " + key + " is already being tracked"
  }

  /** `getFlightDataFromProviders`: FlightStats' data if usable, else
      FlightAware's if usable, else one error naming both failures. */
  function GetFlightDataFromProviders(flightNumber: string, responses: Responses): (r: Result<FlightData, string>)
    ensures r.Success? <==> Usable(responses.flightStats) || Usable(responses.flightAware)
    ensures Usable(responses.flightStats) ==> r == Success(responses.flightStats.value.data)
    ensures !Usable(responses.flightStats) && Usable(responses.flightAware)
            ==> r == Success(responses.flightAware.value.data)
    ensures r.Failure? ==>
              r.error == AggregateFailurePrefix(flightNumber)
                + "FlightStats: " + FailureReason(responses.flightStats)
                + ", " + "FlightAware: " + FailureReason(responses.flightAware)
  {
    if Usable(responses.flightStats) then Success(responses.flightStats.value.data)
    else if Usable(responses.flightAware) then Success(responses.flightAware.value.data)
    else Failure(AggregateFailureMessage(flightNumber, responses))
  }

  /** The first usable answer of a list, the reference for the selection
      policy. */
  function FirstUsable(answers: seq<Settled>): Option<FlightData> {
    if answers == [] then None
    else if Usable(answers[0]) then Some(answers[0].value.data)
    else FirstUsable(answers[1..])
  }

  /** The aggregator returns the first usable answer in declared priority
      order, and fails exactly when there is none. */
  lemma AggregatorPicksFirstUsable(flightNumber: string, responses: Responses)
    ensures var r := GetFlightDataFromProviders(flightNumber, responses);
            var first := FirstUsable([responses.flightStats, responses.flightAware]);
            (r.Success? <==> first.Some?) && (r.Success? ==> r.value == first.value)
  {
    var answers := [responses.flightStats, responses.flightAware];
    assert answers[1..] == [responses.flightAware];
    assert [responses.flightAware][1..] == [];
    assert FirstUsable([]) == None;
    assert FirstUsable([responses.flightAware])
        == if Usable(responses.flightAware) then Some(responses.flightAware.value.data) else None;
  }

  /** An answer computed by a provider at time `now` is usable data that is
      plausible at `now`, or is not usable at all. */
  predicate PlausibleAnswer(s: Settled, now: Timestamp) {
    Usable(s) ==> PlausibleAt(s.value.data, now)
  }

  /** When both providers actually ran, whatever the aggregator returns is
      plausible: no arrival without departure, arrival after departure, both
      in the past. Each provider reads its own clock after its own delay, so
      "the past" is judged at the later of the two readings. */
  lemma AggregatedProviderDataIsPlausible(flightNumber: string, statsDraws: Providers.Draws, statsNow: Timestamp,
                                          awareDraws: Providers.Draws, awareNow: Timestamp)
    ensures var responses := Responses(
              Fulfilled(Providers.GetFlightData(Providers.FlightStats, flightNumber, statsDraws, statsNow)),
              Fulfilled(Providers.GetFlightData(Providers.FlightAware, flightNumber, awareDraws, awareNow)));
            var r := GetFlightDataFromProviders(flightNumber, responses);
            var later := if statsNow < awareNow then awareNow else statsNow;
            r.Success? ==> PlausibleAt(r.value, later)
  {
  }

  // ---------------------------------------------------------------------
  // Record construction and the one-flight refresh

  /** The record `addFlightToTracking` stores. */
  function NewFlight(key: string, d: FlightData, now: Timestamp): (f: Flight)
    ensures f.flightNumber == key && f.createdAt == now && f.updatedAt == now
    ensures f.Times() == d
    ensures f.status == DetermineFlightStatus(d)
    ensures ArrivalNeedsDeparture(d) ==> Consistent(f)
  {
    Flight(key, DetermineFlightStatus(d), d.actualDepartureTime, d.actualArrivalTime, now, now)
  }

  /** The record after a successful refresh: the later status, each time
      field kept if already set and filled from the new data otherwise, and
      a new `updatedAt`. */
  function MergeFlight(current: Flight, d: FlightData, now: Timestamp): (merged: Flight)
    ensures merged.flightNumber == current.flightNumber && merged.createdAt == current.createdAt
    ensures merged.updatedAt == now
    ensures Rank(merged.status) == Max(Rank(current.status), Rank(DetermineFlightStatus(d)))
    ensures current.actualDepartureTime.Some? ==> merged.actualDepartureTime == current.actualDepartureTime
    ensures current.actualDepartureTime.None? ==> merged.actualDepartureTime == d.actualDepartureTime
    ensures current.actualArrivalTime.Some? ==> merged.actualArrivalTime == current.actualArrivalTime
    ensures current.actualArrivalTime.None? ==> merged.actualArrivalTime == d.actualArrivalTime
  {
    current.(
      status := GetUpdatedStatus(current.status, DetermineFlightStatus(d)),
      actualDepartureTime := current.actualDepartureTime.OrElse(d.actualDepartureTime),
      actualArrivalTime := current.actualArrivalTime.OrElse(d.actualArrivalTime),
      updatedAt := now)
  }

  /** What refreshing one tracked flight does. */
  datatype RefreshOutcome =
    | Skipped(flight: Flight)     // already arrived: passed through unfetched
    | Updated(flight: Flight)     // fetched and merged
    | Failed(error: string)       // the aggregator failed

  /** One flight of `refreshAllFlights`. */
  function RefreshFlight(key: string, current: Flight, responses: Responses, now: Timestamp): RefreshOutcome {
    if current.status == Arrived then Skipped(current)
    else match GetFlightDataFromProviders(key, responses)
      case Failure(e) => Failed(e)
      case Success(d) => Updated(MergeFlight(current, d, now))
  }

  /** The record the registry holds after the outcome: only an update is
      written back; a skipped or failed flight keeps its record. */
  function StoredAfter(current: Flight, outcome: RefreshOutcome): (stored: Flight)
    ensures outcome.Updated? ==> stored == outcome.flight
    ensures !outcome.Updated? ==> stored == current
  {
    if outcome.Updated? then outcome.flight else current
  }

  /** The three ways one flight's refresh ends: an arrived flight is
      skipped and kept as it is; otherwise a failed aggregation is reported
      with the aggregator's message; otherwise the record is updated. */
  lemma RefreshOutcomeCases(key: string, current: Flight, responses: Responses, now: Timestamp)
    ensures var outcome := RefreshFlight(key, current, responses, now);
            var fetched := GetFlightDataFromProviders(key, responses);
            && (outcome.Skipped? <==> current.status == Arrived)
            && (outcome.Skipped? ==> outcome.flight == current)
            && (outcome.Failed? <==> current.status != Arrived && fetched.Failure?)
            && (outcome.Failed? ==> outcome.error == fetched.error)
            && (outcome.Updated? <==> current.status != Arrived && fetched.Success?)
  {
  }

  /** An arrived flight is not fetched: its outcome is the same whatever the
      providers would have answered, and it is passed through unchanged. */
  lemma ArrivedFlightIsNotFetched(key: string, current: Flight, r1: Responses, r2: Responses, now1: Timestamp, now2: Timestamp)
    requires current.status == Arrived
    ensures RefreshFlight(key, current, r1, now1) == RefreshFlight(key, current, r2, now2) == Skipped(current)
  {
  }

  /** A refresh never moves the stored status backwards, never overwrites a
      set time, fills an unset one from the new data, and changes no field
      but the status, the times and `updatedAt`. */
  lemma RefreshIsForwardOnlyAndSticky(key: string, current: Flight, responses: Responses, now: Timestamp)
    ensures var stored := StoredAfter(current, RefreshFlight(key, current, responses, now));
            && Rank(stored.status) >= Rank(current.status)
            && (current.actualDepartureTime.Some? ==> stored.actualDepartureTime == current.actualDepartureTime)
            && (current.actualArrivalTime.Some? ==> stored.actualArrivalTime == current.actualArrivalTime)
            && stored.flightNumber == current.flightNumber
            && stored.createdAt == current.createdAt
  {
  }

  /** A successful refresh of a flight not yet arrived fills each unset time
      from the aggregated data and stamps `updatedAt`. */
  lemma RefreshFillsUnsetTimes(key: string, current: Flight, responses: Responses, now: Timestamp)
    requires current.status != Arrived
    requires GetFlightDataFromProviders(key, responses).Success?
    ensures var d := GetFlightDataFromProviders(key, responses).value;
            var stored := StoredAfter(current, RefreshFlight(key, current, responses, now));
            && (current.actualDepartureTime.None? ==> stored.actualDepartureTime == d.actualDepartureTime)
            && (current.actualArrivalTime.None? ==> stored.actualArrivalTime == d.actualArrivalTime)
            && stored.updatedAt == now
            && stored.status == GetUpdatedStatus(current.status, DetermineFlightStatus(d))
  {
  }

  /** Merging data with no arrival before departure into a consistent record
      yields a consistent record: the merged status is the classification of
      the merged times. */
  lemma {:induction false} MergePreservesConsistency(current: Flight, d: FlightData, now: Timestamp)
    requires Consistent(current)
    requires ArrivalNeedsDeparture(d)
    ensures Consistent(MergeFlight(current, d, now))
  {
    var merged := MergeFlight(current, d, now);
    StatusCountsEvents(current.Times());
    StatusCountsEvents(d);
    assert ArrivalNeedsDeparture(merged.Times());
    StatusCountsEvents(merged.Times());
    assert EventCount(merged.Times()) == Max(EventCount(current.Times()), EventCount(d));
  }

  /** A refresh keeps a consistent record consistent as long as the answers
      it may use have no arrival without departure. */
  lemma RefreshPreservesConsistency(key: string, current: Flight, responses: Responses, now: Timestamp)
    requires Consistent(current)
    requires NoArrivalWithoutDeparture(responses)
    ensures Consistent(StoredAfter(current, RefreshFlight(key, current, responses, now)))
  {
    var r := GetFlightDataFromProviders(key, responses);
    if current.status != Arrived && r.Success? {
      MergePreservesConsistency(current, r.value, now);
    }
  }

  /** The usable answers carry no arrival without departure. */
  predicate NoArrivalWithoutDeparture(responses: Responses) {
    && (Usable(responses.flightStats) ==> ArrivalNeedsDeparture(responses.flightStats.value.data))
    && (Usable(responses.flightAware) ==> ArrivalNeedsDeparture(responses.flightAware.value.data))
  }

  /** Answers computed by the two providers, at whatever times, have no
      arrival without departure, so the consistency guarantees of adding and
      refreshing apply to them. */
  lemma ProviderAnswersHaveNoArrivalWithoutDeparture(
    flightNumber: string, statsDraws: Providers.Draws, statsNow: Timestamp,
    awareDraws: Providers.Draws, awareNow: Timestamp)
    ensures NoArrivalWithoutDeparture(Responses(
              Fulfilled(Providers.GetFlightData(Providers.FlightStats, flightNumber, statsDraws, statsNow)),
              Fulfilled(Providers.GetFlightData(Providers.FlightAware, flightNumber, awareDraws, awareNow))))
  {
  }

  /** The sticky merge can keep a departure from an earlier refresh and take
      an arrival from a later, independent answer that lies before it. */
  lemma StickyMergeCanOrderArrivalBeforeDeparture()
    ensures var current := Flight("AA123", Departed, Some(5000), None, 0, 0);
            var merged := MergeFlight(current, FlightData(Some(1000), Some(3000)), 9000);
            merged.actualArrivalTime.value < merged.actualDepartureTime.value
  {
  }

  // ---------------------------------------------------------------------
  // The registry

  /** One failure entry of a refresh. */
  datatype RefreshError = RefreshError(flightNumber: string, error: string)

  /** A key the registry may hold for this record. */
  predicate WellKeyed(key: string, f: Flight) {
    IsNormalizedKey(key) && f.flightNumber == key
  }

  /** The flight numbers a refresh reported, in either list. */
  ghost function ReportedKeys(updatedFlights: seq<Flight>, errors: seq<RefreshError>): set<string> {
    (set f | f in updatedFlights :: f.flightNumber) + (set e | e in errors :: e.flightNumber)
  }

  /** The outcome puts this record into `updatedFlights`. */
  predicate ReportsFlight(outcome: RefreshOutcome, f: Flight) {
    (outcome.Skipped? || outcome.Updated?) && outcome.flight == f
  }

  /** The state of `refreshAllFlights` with the keys in `todo` still to do:
      every key done holds its refreshed record and is reported once, every
      key to do holds its original record. */
  ghost predicate RefreshInvariant(
    snapshot: map<string, Flight>, todo: set<string>, tracked: map<string, Flight>,
    updatedFlights: seq<Flight>, errors: seq<RefreshError>, responses: string -> Responses, now: string -> Timestamp)
  {
    && todo <= snapshot.Keys
    && tracked.Keys == snapshot.Keys
    && (forall k :: k in snapshot ==> WellKeyed(k, snapshot[k]))
    && (forall k :: k in todo ==> tracked[k] == snapshot[k])
    && (forall k :: k in snapshot && k !in todo ==>
          tracked[k] == StoredAfter(snapshot[k], RefreshFlight(k, snapshot[k], responses(k), now(k))))
    && (forall f :: f in updatedFlights ==>
          && f.flightNumber in snapshot && f.flightNumber !in todo
          && ReportsFlight(RefreshFlight(f.flightNumber, snapshot[f.flightNumber], responses(f.flightNumber), now(f.flightNumber)), f))
    && (forall e :: e in errors ==>
          && e.flightNumber in snapshot && e.flightNumber !in todo
          && RefreshFlight(e.flightNumber, snapshot[e.flightNumber], responses(e.flightNumber), now(e.flightNumber)) == Failed(e.error))
    && ReportedKeys(updatedFlights, errors) == snapshot.Keys - todo
    && |updatedFlights| + |errors| + |todo| == |snapshot|
  }

  lemma ReportedKeysAddFlight(updatedFlights: seq<Flight>, errors: seq<RefreshError>, f: Flight)
    ensures ReportedKeys(updatedFlights + [f], errors) == ReportedKeys(updatedFlights, errors) + {f.flightNumber}
  {
    var s := updatedFlights + [f];
    assert (set g | g in s :: g.flightNumber) == (set g | g in updatedFlights :: g.flightNumber) + {f.flightNumber};
  }

  lemma ReportedKeysAddError(updatedFlights: seq<Flight>, errors: seq<RefreshError>, e: RefreshError)
    ensures ReportedKeys(updatedFlights, errors + [e]) == ReportedKeys(updatedFlights, errors) + {e.flightNumber}
  {
    var s := errors + [e];
    assert (set g | g in s :: g.flightNumber) == (set g | g in errors :: g.flightNumber) + {e.flightNumber};
  }

  /** A refreshed record keeps its flight number. */
  lemma RefreshKeepsFlightNumber(key: string, current: Flight, responses: Responses, now: Timestamp)
    ensures var outcome := RefreshFlight(key, current, responses, now);
            (outcome.Skipped? || outcome.Updated?) ==> outcome.flight.flightNumber == current.flightNumber
  {
  }

  /** An iteration of `refreshAllFlights` that passes an arrived flight
      through keeps the invariant. */
  lemma RefreshStepSkipped(
    snapshot: map<string, Flight>, todo: set<string>, tracked: map<string, Flight>,
    updatedFlights: seq<Flight>, errors: seq<RefreshError>, responses: string -> Responses, now: string -> Timestamp,
    key: string, f: Flight)
    requires RefreshInvariant(snapshot, todo, tracked, updatedFlights, errors, responses, now)
    requires key in todo && RefreshFlight(key, tracked[key], responses(key), now(key)) == Skipped(f)
    ensures RefreshInvariant(snapshot, todo - {key}, tracked, updatedFlights + [f], errors, responses, now)
  {
    RefreshStepReported(snapshot, todo, tracked, updatedFlights, errors, responses, now, key, updatedFlights + [f], errors);
  }

  /** An iteration of `refreshAllFlights` that stores a refreshed record
      keeps the invariant. */
  lemma RefreshStepUpdated(
    snapshot: map<string, Flight>, todo: set<string>, tracked: map<string, Flight>,
    updatedFlights: seq<Flight>, errors: seq<RefreshError>, responses: string -> Responses, now: string -> Timestamp,
    key: string, f: Flight)
    requires RefreshInvariant(snapshot, todo, tracked, updatedFlights, errors, responses, now)
    requires key in todo && RefreshFlight(key, tracked[key], responses(key), now(key)) == Updated(f)
    ensures RefreshInvariant(snapshot, todo - {key}, tracked[key := f], updatedFlights + [f], errors, responses, now)
  {
    assert tracked[key] == snapshot[key];
    assert StoredAfter(snapshot[key], Updated(f)) == f;
    RefreshStepReported(snapshot, todo, tracked, updatedFlights, errors, responses, now, key, updatedFlights + [f], errors);
    RefreshStepStored(snapshot, todo, tracked, responses, now, key, tracked[key := f]);
  }

  /** An iteration of `refreshAllFlights` that records a failure keeps the
      invariant. */
  lemma RefreshStepFailed(
    snapshot: map<string, Flight>, todo: set<string>, tracked: map<string, Flight>,
    updatedFlights: seq<Flight>, errors: seq<RefreshError>, responses: string -> Responses, now: string -> Timestamp,
    key: string, e: string)
    requires RefreshInvariant(snapshot, todo, tracked, updatedFlights, errors, responses, now)
    requires key in todo && RefreshFlight(key, tracked[key], responses(key), now(key)) == Failed(e)
    ensures RefreshInvariant(snapshot, todo - {key}, tracked, updatedFlights, errors + [RefreshError(key, e)], responses, now)
  {
    RefreshStepReported(snapshot, todo, tracked, updatedFlights, errors, responses, now, key, updatedFlights, errors + [RefreshError(key, e)]);
  }

  /** The stored part of the invariant after one key: its record is the
      refreshed one, all others stay as they were. */
  lemma RefreshStepStored(
    snapshot: map<string, Flight>, todo: set<string>, tracked: map<string, Flight>,
    responses: string -> Responses, now: string -> Timestamp, key: string, tracked': map<string, Flight>)
    requires todo <= snapshot.Keys && tracked.Keys == snapshot.Keys && key in todo
    requires forall k :: k in todo ==> tracked[k] == snapshot[k]
    requires forall k :: k in snapshot && k !in todo ==>
               tracked[k] == StoredAfter(snapshot[k], RefreshFlight(k, snapshot[k], responses(k), now(k)))
    requires tracked' == tracked[key := StoredAfter(snapshot[key], RefreshFlight(key, snapshot[key], responses(key), now(key)))]
    ensures tracked'.Keys == snapshot.Keys
    ensures forall k :: k in todo - {key} ==> tracked'[k] == snapshot[k]
    ensures forall k :: k in snapshot && k !in todo - {key} ==>
              tracked'[k] == StoredAfter(snapshot[k], RefreshFlight(k, snapshot[k], responses(k), now(k)))
  {
  }

  /** The reported part of the invariant after one key: the key's entry
      joins the list its outcome names. */
  lemma RefreshStepReported(
    snapshot: map<string, Flight>, todo: set<string>, tracked: map<string, Flight>,
    updatedFlights: seq<Flight>, errors: seq<RefreshError>, responses: string -> Responses, now: string -> Timestamp,
    key: string, updatedFlights': seq<Flight>, errors': seq<RefreshError>)
    requires RefreshInvariant(snapshot, todo, tracked, updatedFlights, errors, responses, now)
    requires key in todo
    requires var outcome := RefreshFlight(key, tracked[key], responses(key), now(key));
             match outcome
             case Skipped(f) => updatedFlights' == updatedFlights + [f] && errors' == errors
             case Updated(f) => updatedFlights' == updatedFlights + [f] && errors' == errors
             case Failed(e) => updatedFlights' == updatedFlights && errors' == errors + [RefreshError(key, e)]
    ensures forall f :: f in updatedFlights' ==>
              && f.flightNumber in snapshot && f.flightNumber !in todo - {key}
              && ReportsFlight(RefreshFlight(f.flightNumber, snapshot[f.flightNumber], responses(f.flightNumber), now(f.flightNumber)), f)
    ensures forall e :: e in errors' ==>
              && e.flightNumber in snapshot && e.flightNumber !in todo - {key}
              && RefreshFlight(e.flightNumber, snapshot[e.flightNumber], responses(e.flightNumber), now(e.flightNumber)) == Failed(e.error)
    ensures ReportedKeys(updatedFlights', errors') == snapshot.Keys - (todo - {key})
    ensures |updatedFlights'| + |errors'| + |todo - {key}| == |snapshot|
  {
    var outcome := RefreshFlight(key, tracked[key], responses(key), now(key));
    RefreshKeepsFlightNumber(key, tracked[key], responses(key), now(key));
    assert |todo - {key}| == |todo| - 1;
    match outcome {
      case Skipped(f) =>
        ReportedKeysAddFlight(updatedFlights, errors, f);
      case Updated(f) =>
        ReportedKeysAddFlight(updatedFlights, errors, f);
      case Failed(e) =>
        ReportedKeysAddError(updatedFlights, errors, RefreshError(key, e));
    }
  }

  /** What the finished loop of `refreshAllFlights` has established. */
  lemma RefreshDone(
    snapshot: map<string, Flight>, tracked: map<string, Flight>,
    updatedFlights: seq<Flight>, errors: seq<RefreshError>, responses: string -> Responses, now: string -> Timestamp)
    requires RefreshInvariant(snapshot, {}, tracked, updatedFlights, errors, responses, now)
    ensures forall k :: k in tracked ==> WellKeyed(k, tracked[k])
    ensures forall k :: k in snapshot ==> Rank(tracked[k].status) >= Rank(snapshot[k].status)
    ensures (forall k :: k in snapshot ==> Consistent(snapshot[k]) && NoArrivalWithoutDeparture(responses(k)))
            ==> forall k :: k in tracked ==> Consistent(tracked[k])
  {
    forall k | k in snapshot
      ensures WellKeyed(k, tracked[k])
      ensures Rank(tracked[k].status) >= Rank(snapshot[k].status)
    {
      RefreshKeepsFlightNumber(k, snapshot[k], responses(k), now(k));
      RefreshIsForwardOnlyAndSticky(k, snapshot[k], responses(k), now(k));
    }
    if forall k :: k in snapshot ==> Consistent(snapshot[k]) && NoArrivalWithoutDeparture(responses(k)) {
      forall k | k in snapshot
        ensures Consistent(tracked[k])
      {
        RefreshPreservesConsistency(k, snapshot[k], responses(k), now(k));
      }
    }
  }

  /** `FlightService`: the map from normalised flight number to record. */
  class FlightService {
    var trackedFlights: map<string, Flight>

    /** Every record sits under its own normalised, non-empty flight number. */
    ghost predicate Valid()
      reads this
    {
      forall k :: k in trackedFlights ==> WellKeyed(k, trackedFlights[k])
    }

    /** Every stored status is the classification of the stored times. */
    ghost predicate AllConsistent()
      reads this
    {
      forall k :: k in trackedFlights ==> Consistent(trackedFlights[k])
    }

    constructor ()
      ensures Valid() && AllConsistent()
      ensures trackedFlights == map[]
    {
      trackedFlights := map[];
    }

    /** `addFlightToTracking`: reject an empty or already tracked key, then
        a failed aggregation, each leaving the registry unchanged; otherwise
        store a new record under the key. */
    method AddFlightToTracking(flightNumber: string, responses: Responses, now: Timestamp)
      returns (r: Result<Flight, string>)
      requires Valid()
      modifies this
      ensures Valid()
      ensures var key := NormalizeKey(flightNumber);
              if key == [] then
                r == Failure(EmptyFlightNumberMessage) && trackedFlights == old(trackedFlights)
              else if key in old(trackedFlights) then
                r == Failure(AlreadyTrackedMessage(key)) && trackedFlights == old(trackedFlights)
              else match GetFlightDataFromProviders(key, responses)
                case Failure(e) => r == Failure(e) && trackedFlights == old(trackedFlights)
                case Success(d) =>
                  && r == Success(NewFlight(key, d, now))
                  && trackedFlights == old(trackedFlights)[key := r.value]
                  && |trackedFlights| == |old(trackedFlights)| + 1
      ensures old(AllConsistent()) && NoArrivalWithoutDeparture(responses) ==> AllConsistent()
    {
      var key := NormalizeKey(flightNumber);
      if key == [] {
        return Failure(EmptyFlightNumberMessage);
      }
      if key in trackedFlights {
        return Failure(AlreadyTrackedMessage(key));
      }
      var fetched := GetFlightDataFromProviders(key, responses);
      if fetched.Failure? {
        return Failure(fetched.error);
      }
      var flight := NewFlight(key, fetched.value, now);
      NormalizeKeyGivesKey(flightNumber);
      trackedFlights := trackedFlights[key := flight];
      r := Success(flight);
    }

    /** `getAllFlights`: every record exactly once, in some order. */
    method GetAllFlights() returns (flights: seq<Flight>)
      requires Valid()
      ensures |flights| == |trackedFlights|
      ensures forall i :: 0 <= i < |flights| ==>
                flights[i].flightNumber in trackedFlights && trackedFlights[flights[i].flightNumber] == flights[i]
      ensures forall k :: k in trackedFlights ==> trackedFlights[k] in flights
      ensures forall i, j :: 0 <= i < j < |flights| ==> flights[i].flightNumber != flights[j].flightNumber
    {
      flights := [];
      var todo := trackedFlights.Keys;
      while todo != {}
        invariant todo <= trackedFlights.Keys
        invariant |flights| + |todo| == |trackedFlights|
        invariant forall i :: 0 <= i < |flights| ==>
                    flights[i].flightNumber in trackedFlights.Keys - todo
                    && trackedFlights[flights[i].flightNumber] == flights[i]
        invariant forall k :: k in trackedFlights.Keys - todo ==> trackedFlights[k] in flights
        invariant forall i, j :: 0 <= i < j < |flights| ==> flights[i].flightNumber != flights[j].flightNumber
        decreases |todo|
      {
        var k :| k in todo;
        flights := flights + [trackedFlights[k]];
        todo := todo - {k};
      }
    }

    /** `removeFlightFromTracking`: delete the normalised key and report
        whether it was there; nothing else changes. */
    method RemoveFlightFromTracking(flightNumber: string) returns (removed: bool)
      requires Valid()
      modifies this
      ensures Valid()
      ensures removed <==> NormalizeKey(flightNumber) in old(trackedFlights)
      ensures trackedFlights == old(trackedFlights) - {NormalizeKey(flightNumber)}
      ensures old(AllConsistent()) ==> AllConsistent()
    {
      var key := NormalizeKey(flightNumber);
      removed := key in trackedFlights;
      trackedFlights := trackedFlights - {key};
    }

    /** `refreshAllFlights`, one flight at a time over a snapshot of the keys:
        each key is either passed through, refreshed or reported as failed,
        and appears in exactly one of the two lists. Each flight gets the
        answers and the clock reading of its own fetch. */
    method RefreshAllFlights(responses: string -> Responses, now: string -> Timestamp)
      returns (updatedFlights: seq<Flight>, errors: seq<RefreshError>)
      requires Valid()
      modifies this
      ensures Valid()
      ensures trackedFlights.Keys == old(trackedFlights).Keys
      ensures forall k :: k in old(trackedFlights) ==>
                trackedFlights[k] == StoredAfter(old(trackedFlights)[k], RefreshFlight(k, old(trackedFlights)[k], responses(k), now(k)))
      ensures forall f :: f in updatedFlights ==>
                && f.flightNumber in old(trackedFlights)
                && ReportsFlight(RefreshFlight(f.flightNumber, old(trackedFlights)[f.flightNumber], responses(f.flightNumber), now(f.flightNumber)), f)
      ensures forall e :: e in errors ==>
                && e.flightNumber in old(trackedFlights)
                && RefreshFlight(e.flightNumber, old(trackedFlights)[e.flightNumber], responses(e.flightNumber), now(e.flightNumber))
                   == Failed(e.error)
      ensures ReportedKeys(updatedFlights, errors) == old(trackedFlights).Keys
      ensures |updatedFlights| + |errors| == |old(trackedFlights)|
      ensures forall k :: k in old(trackedFlights) ==> Rank(trackedFlights[k].status) >= Rank(old(trackedFlights)[k].status)
      ensures old(AllConsistent()) && (forall k :: k in old(trackedFlights) ==> NoArrivalWithoutDeparture(responses(k)))
              ==> AllConsistent()
    {
      ghost var snapshot := trackedFlights;
      updatedFlights, errors := [], [];
      var todo := trackedFlights.Keys;
      while todo != {}
        invariant RefreshInvariant(snapshot, todo, trackedFlights, updatedFlights, errors, responses, now)
        decreases |todo|
      {
        var key :| key in todo;
        var current := trackedFlights[key];
        var outcome := RefreshFlight(key, current, responses(key), now(key));
        match outcome {
          case Skipped(f) =>
            RefreshStepSkipped(snapshot, todo, trackedFlights, updatedFlights, errors, responses, now, key, f);
            updatedFlights := updatedFlights + [f];
          case Updated(f) =>
            RefreshStepUpdated(snapshot, todo, trackedFlights, updatedFlights, errors, responses, now, key, f);
            trackedFlights := trackedFlights[key := f];
            updatedFlights := updatedFlights + [f];
          case Failed(e) =>
            RefreshStepFailed(snapshot, todo, trackedFlights, updatedFlights, errors, responses, now, key, e);
            errors := errors + [RefreshError(key, e)];
        }
        todo := todo - {key};
      }
      RefreshDone(snapshot, trackedFlights, updatedFlights, errors, responses, now);
    }

    /** `getTrackedFlightsCount`. */
    method GetTrackedFlightsCount() returns (count: nat)
      ensures count == |trackedFlights.Keys|
    {
      count := |trackedFlights|;
    }

    /** `clearAllFlights`. */
    method ClearAllFlights()
      modifies this
      ensures Valid() && AllConsistent()
      ensures trackedFlights == map[]
    {
      trackedFlights := map[];
    }
  }

  /** A client of the registry, following the service's unit tests: an
      add is stored under the normalised key, a second add of the key itself
      is refused, and of two removes only the first reports true. */
  method TrackingScenario(flightNumber: string, responses: Responses, now: Timestamp)
    requires NormalizeKey(flightNumber) != []
    requires Usable(responses.flightStats)
  {
    var service := new FlightService();
    var key := NormalizeKey(flightNumber);
    var added := service.AddFlightToTracking(flightNumber, responses, now);
    assert added.Success? && added.value.flightNumber == key;
    assert added.value.status == DetermineFlightStatus(responses.flightStats.value.data);
    var count := service.GetTrackedFlightsCount();
    assert count == 1;
    NormalizeKeyIdempotent(flightNumber);
    var again := service.AddFlightToTracking(key, responses, now);
    assert again == Failure(AlreadyTrackedMessage(key));
    var removed := service.RemoveFlightFromTracking(flightNumber);
    assert removed;
    removed := service.RemoveFlightFromTracking(key);
    assert !removed;
  }
}
