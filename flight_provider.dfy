/** The simulated flight-data providers. Each answer depends on random draws
    and on the current time; here both are parameters, so an answer is a
    deterministic branch on its inputs. */
module Providers {
  import opened Wrappers
  import opened FlightTypes

  /** An interval `[min, max]`, in milliseconds for delays and hours for
      flight durations. */
  datatype Range = Range(min: real, max: real)

  /** The configuration of one provider instance. */
  datatype ProviderConfig = ProviderConfig(
    name: string,
    flightNotFoundProbability: real,
    maintenanceProbability: Option<real>,
    networkDelayRange: Range,
    flightDurationRange: Range)

  /** The values `Math.random()` returns to one call, in the order they are
      drawn: the not-found draw, the maintenance draw (drawn only when a
      maintenance probability is configured), the departure-offset draw and
      the duration draw. Each lies in `[0, 1)` in the source; nothing below
      depends on that. */
  datatype Draws = Draws(notFound: real, maintenance: real, offset: real, duration: real)

  const MillisPerHour: int := 60 * 60 * 1000

  /** Scheduled departures fall within 24 hours either side of now. */
  const OffsetSpan: int := 48 * MillisPerHour

  /** Flights last at least half an hour. */
  const MinimumDurationHours: real := 0.5

  const FlightAware: ProviderConfig := ProviderConfig(
    "FlightAware", 0.05, None, Range(100.0, 600.0), Range(1.0, 8.0))

  const FlightStats: ProviderConfig := ProviderConfig(
    "FlightStats", 0.03, Some(0.05), Range(50.0, 350.0), Range(1.0, 6.0))

  function NotFoundMessage(flightNumber: string, providerName: string): string {
    "Flight " + flightNumber + " not found in " + providerName + " database"
  }

  function MaintenanceMessage(flightNumber: string): string {
    "Flight " + flightNumber + " is currently under maintenance - data temporarily unavailable"
  }

  /** The integer a `Date` keeps of a fractional millisecond count: the
      fraction is dropped toward zero. */
  function TruncateTowardZero(x: real): (n: int)
    ensures x >= 0.0 ==> n as real <= x < n as real + 1.0
    ensures x < 0.0 ==> n as real - 1.0 < x <= n as real
  {
    if x >= 0.0 then x.Floor else -((-x).Floor)
  }

  /** Whether the maintenance error fires: only for a configured, non-zero
      probability (JavaScript's truthiness test on the optional number). */
  predicate MaintenanceFires(config: ProviderConfig, draw: real)
    ensures 0.0 <= draw ==>
              (MaintenanceFires(config, draw) <==>
               draw < if config.maintenanceProbability.Some? then config.maintenanceProbability.value else 0.0)
  {
    config.maintenanceProbability.Some?
    && config.maintenanceProbability.value != 0.0
    && draw < config.maintenanceProbability.value
  }

  /** The scheduled departure: now shifted by an offset spread over
      `[-24h, +24h)`. */
  function ScheduledDeparture(draws: Draws, now: Timestamp): (departure: Timestamp)
    ensures 0.0 <= draws.offset < 1.0 ==> now - OffsetSpan / 2 <= departure <= now + OffsetSpan / 2
  {
    var exact := now as real + (draws.offset - 0.5) * OffsetSpan as real;
    OffsetWithinWindow(exact, now, draws.offset);
    TruncateTowardZero(exact)
  }

  lemma OffsetWithinWindow(exact: real, now: Timestamp, offset: real)
    requires exact == now as real + (offset - 0.5) * OffsetSpan as real
    ensures 0.0 <= offset < 1.0 ==>
              now - OffsetSpan / 2 <= TruncateTowardZero(exact) <= now + OffsetSpan / 2
  {
    if 0.0 <= offset < 1.0 {
      TruncateAtLeast(exact, now - OffsetSpan / 2);
      TruncateAtMost(exact, now + OffsetSpan / 2);
    }
  }

  /** The drawn flight duration in hours, before the half-hour floor: it
      lies within the configured range. */
  function FlightDurationHours(config: ProviderConfig, draws: Draws): (hours: real)
    ensures 0.0 <= draws.duration <= 1.0 && config.flightDurationRange.min <= config.flightDurationRange.max
            ==> config.flightDurationRange.min <= hours <= config.flightDurationRange.max
  {
    var width := config.flightDurationRange.max - config.flightDurationRange.min;
    ScaledDrawWithinWidth(draws.duration, width);
    config.flightDurationRange.min + draws.duration * width
  }

  lemma ScaledDrawWithinWidth(draw: real, width: real)
    ensures 0.0 <= draw <= 1.0 && 0.0 <= width ==> 0.0 <= draw * width <= width
  {
    if 0.0 <= draw <= 1.0 && 0.0 <= width {
      assert 0.0 <= (1.0 - draw) * width;
    }
  }

  /** The estimated arrival of a flight leaving at `departure`: at least half
      an hour after it, whatever was drawn. */
  function EstimatedArrival(departure: Timestamp, durationHours: real): (arrival: Timestamp)
    ensures arrival >= departure + MillisPerHour / 2
  {
    var safeDuration := if durationHours > MinimumDurationHours then durationHours else MinimumDurationHours;
    var exact := departure as real + safeDuration * MillisPerHour as real;
    TruncateAtLeast(exact, departure + MillisPerHour / 2);
    TruncateTowardZero(exact)
  }

  /** Truncation never rises above an integer the value does not exceed. */
  lemma TruncateAtMost(x: real, bound: int)
    requires x <= bound as real
    ensures TruncateTowardZero(x) <= bound
  {
  }

  /** Truncation never drops below an integer the value already exceeds. */
  lemma TruncateAtLeast(x: real, bound: int)
    requires x >= bound as real
    ensures TruncateTowardZero(x) >= bound
  {
    if x < 0.0 {
      assert (-x).Floor as real <= -x <= -bound as real;
    }
  }

  /** One provider answer, `getFlightData` with its randomness and clock
      supplied. The not-found check comes first, then maintenance, then the
      synthesised times: none if the departure is not yet in the past; the
      departure alone while the estimated arrival is not yet in the past;
      both otherwise. */
  function GetFlightData(config: ProviderConfig, flightNumber: string, draws: Draws, now: Timestamp): (r: ProviderResult)
    ensures draws.notFound < config.flightNotFoundProbability
            ==> r == ProviderError(NotFoundMessage(flightNumber, config.name))
    ensures !(draws.notFound < config.flightNotFoundProbability) && MaintenanceFires(config, draws.maintenance)
            ==> r == ProviderError(MaintenanceMessage(flightNumber))
    ensures r.ProviderError? <==>
            draws.notFound < config.flightNotFoundProbability || MaintenanceFires(config, draws.maintenance)
    ensures r.ProviderData? ==> PlausibleAt(r.data, now)
    ensures r.ProviderData? ==>
            (r.data.actualDepartureTime.Some? <==> ScheduledDeparture(draws, now) < now)
    ensures r.ProviderData? && r.data.actualDepartureTime.Some? ==>
            r.data.actualDepartureTime.value == ScheduledDeparture(draws, now)
  {
    if draws.notFound < config.flightNotFoundProbability then
      ProviderError(NotFoundMessage(flightNumber, config.name))
    else if MaintenanceFires(config, draws.maintenance) then
      ProviderError(MaintenanceMessage(flightNumber))
    else
      var scheduled := ScheduledDeparture(draws, now);
      if scheduled < now then
        var estimated := EstimatedArrival(scheduled, FlightDurationHours(config, draws));
        var arrival := if estimated > scheduled && estimated < now then Some(estimated) else None;
        ProviderData(FlightData(Some(scheduled), arrival))
      else
        ProviderData(FlightData(None, None))
  }

  /** The arrival is reported exactly when the estimate is already in the
      past; the guard "after departure" never rejects anything. */
  lemma ArrivalReportedIffEstimatePassed(config: ProviderConfig, flightNumber: string, draws: Draws, now: Timestamp)
    requires GetFlightData(config, flightNumber, draws, now).ProviderData?
    requires ScheduledDeparture(draws, now) < now
    ensures var d := GetFlightData(config, flightNumber, draws, now).data;
            var estimate := EstimatedArrival(ScheduledDeparture(draws, now), FlightDurationHours(config, draws));
            d.actualArrivalTime == (if estimate < now then Some(estimate) else None)
  {
  }

  /** FlightAware has no maintenance probability: its only error is "not
      found". */
  lemma FlightAwareNeverInMaintenance(flightNumber: string, draws: Draws, now: Timestamp)
    ensures var r := GetFlightData(FlightAware, flightNumber, draws, now);
            r.ProviderError? ==> r.error == NotFoundMessage(flightNumber, "FlightAware")
  {
  }

  /** FlightStats does report maintenance: a not-found draw at or above 0.03
      and a maintenance draw below 0.05 give the maintenance error. */
  lemma FlightStatsReportsMaintenance(flightNumber: string, draws: Draws, now: Timestamp)
    requires 0.03 <= draws.notFound && draws.maintenance < 0.05
    ensures GetFlightData(FlightStats, flightNumber, draws, now) == ProviderError(MaintenanceMessage(flightNumber))
  {
  }

  /** The two configured providers: probabilities in `[0, 1)`, ordered
      ranges, positive delays, flights of at least an hour, and a maintenance
      probability for FlightStats only. */
  lemma ProviderConfigurations()
    ensures forall c :: c in {FlightAware, FlightStats} ==>
              && 0.0 <= c.flightNotFoundProbability < 1.0
              && 0.0 < c.networkDelayRange.min <= c.networkDelayRange.max
              && 1.0 <= c.flightDurationRange.min <= c.flightDurationRange.max
    ensures FlightAware.maintenanceProbability.None?
    ensures FlightStats.maintenanceProbability.Some?
            && 0.0 < FlightStats.maintenanceProbability.value < 1.0
  {
  }

  /** With the configured ranges the half-hour floor never applies: a
      duration draw in `[0, 1]` gives at least an hour. */
  lemma ConfiguredDurationsNeedNoFloor(config: ProviderConfig, draws: Draws)
    requires config == FlightAware || config == FlightStats
    requires 0.0 <= draws.duration <= 1.0
    ensures FlightDurationHours(config, draws) >= 1.0 > MinimumDurationHours
  {
    ProviderConfigurations();
  }
}
