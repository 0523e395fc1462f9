/** The card record shared by the intake, list, export and cache code. */
module TimelineCards {
  import opened Wrappers

  /** `Date.prototype.getMonth()`: 0 for January to 11 for December. */
  type Month = m: int | 0 <= m < 12

  /**
   * A JavaScript `Date` reduced to what the core reads from it: `getTime()` (milliseconds
   * since the epoch) and `getMonth()` in the local time zone.
   */
  datatype Instant = Instant(time: int, month: Month)

  /** One photo and its label; `year` is kept separately from `fullDate` and may be edited. */
  datatype TimelineCard = TimelineCard(
    id: string,
    image: string,
    filename: string,
    eventName: string,
    year: int,
    fullDate: Option<Instant>,
    dateSource: string)
}
