/**
  The tables the dashboard works on: the cleaned trip table (restricted to
  the columns the modelled rules read) and the taxi-zone lookup table.
 */
module Trips {
  import opened Wrappers

  /**
    One row of the trip table. `pickupDate` is the calendar date of
    `tpep_pickup_datetime` as a day number. The four name fields are the
    `pickup_zone`, `pickup_borough`, `dropoff_zone` and `dropoff_borough`
    columns; they carry meaning only when the table holds those columns.
   */
  datatype Trip = Trip(
    pickupDate: int,
    pickupHour: int,
    pickupDayOfWeek: string,
    paymentType: Option<int>,
    puLocationId: int,
    doLocationId: int,
    pickupZone: Option<string>,
    pickupBorough: Option<string>,
    dropoffZone: Option<string>,
    dropoffBorough: Option<string>)

  /**
    A trip table: its rows, and whether its columns include the pickup
    (`pickup_zone`, `pickup_borough`) and drop-off (`dropoff_zone`,
    `dropoff_borough`) name columns.
   */
  datatype Table = Table(rows: seq<Trip>, hasPickupNames: bool, hasDropoffNames: bool)

  /** One row of the zone lookup table (`LocationID`, `Zone`, `Borough`). */
  datatype Zone = Zone(locationId: int, zone: Option<string>, borough: Option<string>)
}
