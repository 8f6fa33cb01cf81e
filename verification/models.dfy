/**
 * The records of internal/models: an incident zone and the audit record of
 * one location check, plus the scalar types they are built from.
 */
module Models {

  /** A UUID in its canonical textual form (what `uuid.UUID.String()` prints). */
  type Id = string

  /** The all-zero UUID, Go's zero value for `uuid.UUID`. */
  const NilId: Id := "00000000-0000-0000-0000-000000000000"

  /**
   * A WGS84 degree value. It stands for a float64 that the core only copies
   * and compares; no arithmetic is ever done on it, so an opaque integer code
   * is enough.
   */
  type Coordinate = int

  /** An instant on an abstract clock (the database's NOW() or Go's time.Now()). */
  type Time = int

  /** Go's zero `time.Time`. */
  const ZeroTime: Time := 0

  /** Go's `int` on the 64-bit targets the service is built for. */
  const MinInt64: int := -0x8000_0000_0000_0000
  const MaxInt64: int := 0x7FFF_FFFF_FFFF_FFFF
  type Int64 = x: int | MinInt64 <= x <= MaxInt64

  const ActiveStatus: string := "active"
  const InactiveStatus: string := "inactive"

  /** An incident zone: a centre point, a radius in meters and a status. */
  datatype Incident = Incident(
    id: Id,
    name: string,
    description: string,
    latitude: Coordinate,
    longitude: Coordinate,
    radiusMeters: int,
    status: string,
    createdAt: Time,
    updatedAt: Time)

  /** The audit record written once per location check. */
  datatype LocationCheck = LocationCheck(
    id: int,
    userId: string,
    latitude: Coordinate,
    longitude: Coordinate,
    isDangerous: bool,
    checkedAt: Time)
}
