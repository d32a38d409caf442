/** Data model of the seat-activity generator: seat records, the seats
    template document, the usage-pattern configuration and the small
    wrapper types the generator needs. */
module SeatTypes {

  datatype Option<+T> = None | Some(value: T)

  /** The outcome of an operation that can throw: `Err` carries the message
      of the thrown error. */
  datatype Result<+T> = Ok(value: T) | Err(error: string)

  /** A point in time, in milliseconds since the epoch (what a JavaScript
      `Date` holds). */
  type Timestamp = int

  /** One hour in milliseconds: what `addHours` adds per hour. */
  const MsPerHour: int := 3600000

  /** The value stored in a seat's `last_activity_at`: a time, or the
      boolean `false` written when the next activity would pass the end
      date. */
  datatype Activity = At(time: Timestamp) | Capped

  /** The time `new Date(v)` gives for a stored `last_activity_at` value `v`:
      the time itself, or the epoch for `false`. */
  function TimeOf(a: Activity): Timestamp {
    match a
    case At(t) => t
    case Capped => 0
  }

  /** A seat record. Only `assignee.login`, `last_activity_at` and
      `last_activity_editor` are touched; everything else in the record is
      carried in `rest`. A missing or `undefined` editor is `None`. */
  datatype Seat = Seat(
    login: string,
    lastActivityAt: Activity,
    lastActivityEditor: Option<string>,
    rest: string)

  /** The template document `{ seats: [...], ... }`: `seats` is `None` when
      the property is absent or `null`, and `rest` stands for the other properties. */
  datatype Template = Template(seats: Option<seq<Seat>>, rest: string)

  /** The closed set of usage patterns. */
  datatype UsagePattern = Heavy | HeavyButSiloed | Moderate | Light

  /** `SeatsMockConfig`: the simulation window, the usage pattern, the
      logins treated as heavy users and the pool of editor names. */
  datatype SeatsMockConfig = SeatsMockConfig(
    startDate: Timestamp,
    endDate: Timestamp,
    usagePattern: UsagePattern,
    heavyUsers: seq<string>,
    editors: seq<string>)
}
