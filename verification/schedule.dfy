/** The cached timetable: entries as the schedule cache stores them. */
module Schedule {
  import opened Wrappers
  import opened JavaLong

  /** One timetable entry. `start` is a millisecond instant; the Java `Date` may be null. */
  datatype ScheduleItem = ScheduleItem(start: Option<Long>, title: string, location: string, cancelled: bool)

  /** An element of the cached list: the list may hold null references. */
  type Entry = Option<ScheduleItem>

  /** What a cache read yields: null when nothing was stored or the read failed. */
  type Cache = Option<seq<Entry>>

  /** The entry is a real item with a start instant. */
  predicate Complete(e: Entry)
  {
    e.Some? && e.value.start.Some?
  }

  /** Every element of the list is a real item with a start instant. */
  predicate NullFree(s: seq<Entry>)
  {
    forall i :: 0 <= i < |s| ==> Complete(s[i])
  }
}
