/** The records shared by the backend service and the frontend: a tracked
    flight, its lifecycle status and the pair of event times a provider
    reports. */
module FlightTypes {
  import opened Wrappers

  /** An instant as milliseconds since the epoch; the service renders these
      as ISO-8601 strings, which this model does not. */
  type Timestamp = int

  /** The lifecycle states, wire tokens `AWAITING`, `DEPARTED`, `ARRIVED`. */
  datatype FlightStatus = Awaiting | Departed | Arrived

  /** The two event times a provider reports; absent means the event has not
      happened as far as that provider knows. */
  datatype FlightData = FlightData(actualDepartureTime: Option<Timestamp>, actualArrivalTime: Option<Timestamp>)

  /** The tracked entity, keyed by its normalised flight number. */
  datatype Flight = Flight(
    flightNumber: string,
    status: FlightStatus,
    actualDepartureTime: Option<Timestamp>,
    actualArrivalTime: Option<Timestamp>,
    createdAt: Timestamp,
    updatedAt: Timestamp)
  {
    /** The event times stored in this record. */
    function Times(): FlightData {
      FlightData(actualDepartureTime, actualArrivalTime)
    }
  }

  /** What one provider answers: a logical error, or the event times. */
  datatype ProviderResult = ProviderError(error: string) | ProviderData(data: FlightData)

  /** An arrival is never recorded without a departure. */
  predicate ArrivalNeedsDeparture(d: FlightData) {
    d.actualArrivalTime.Some? ==> d.actualDepartureTime.Some?
  }

  /** The facts a provider's answer satisfies at time `now`: no arrival
      without departure, arrival strictly after departure, both in the past. */
  predicate PlausibleAt(d: FlightData, now: Timestamp) {
    && ArrivalNeedsDeparture(d)
    && (d.actualDepartureTime.Some? ==> d.actualDepartureTime.value < now)
    && (d.actualArrivalTime.Some? ==> d.actualArrivalTime.value < now)
    && (d.actualArrivalTime.Some? ==> d.actualDepartureTime.value < d.actualArrivalTime.value)
  }
}
