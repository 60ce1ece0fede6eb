/** The persisted rows the core reads and writes. Identifiers generated by the
    database (`UUID`) are opaque naturals; `BigDecimal` amounts are exact reals;
    instants are milliseconds since the epoch. */
module Entities {
  import opened Wrappers

  type Uuid = nat

  /** The failure of dereferencing a `null` association (a route or bus without an operator). */
  const NullPointer := "java.lang.NullPointerException"

  /** The signed-in user, as far as the core looks at it: the operator the user belongs to, if any. */
  datatype User = User(id: Uuid, operatorId: Option<Uuid>)

  /** One leg of a route (table `route_segments`). */
  datatype Segment = Segment(
    id: Uuid,
    routeId: Uuid,
    seqNo: int,
    fromStop: string,
    toStop: string,
    distanceKm: real,
    durationMinutes: int)

  /** One fare row (table `fares`): the price of one segment for one seat type. */
  datatype Fare = Fare(
    id: Uuid,
    routeId: Uuid,
    segmentId: Uuid,
    seatType: string,
    baseFare: real,
    gstPercent: real)

  /** The tax on one base fare: `baseFare * gstPercent / 100`, exact as `BigDecimal.divide` is
      when the quotient terminates (division by 100 always does). */
  function GstAmount(baseFare: real, gstPercent: real): real
  {
    baseFare * gstPercent / 100.0
  }
}
