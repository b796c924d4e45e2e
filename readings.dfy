/** The one entity both sides of the application share: a humidity reading
    as stored in the `humedad` table and as the dashboard receives it. */
module Readings {

  /** `undefined`/`null` in the source. */
  datatype Option<+T> = None | Some(value: T)

  /** One row of the table. The timestamp is assigned by the database and is
      abstracted to the milliseconds that `Date.getTime()` gives for it;
      the humidity is a JavaScript number. */
  datatype HumidityData = HumidityData(timestamp: int, humidity_value: real, location: string)
}
