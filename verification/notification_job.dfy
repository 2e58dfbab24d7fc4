/**
  The "next event" notification job: at each run it picks the soonest
  future, non-cancelled event on now's day of the month from the cached
  timetable, shows or withdraws the single notification, and re-arms itself.
  The state machine uses the selection and delay in exact arithmetic; the
  loop with Java's 64-bit arithmetic is modelled beside it.

  Time is a millisecond instant (`Long`); the calendar's day-of-month is the
  uninterpreted parameter `dayOf`. Job scheduling is an abstract list of
  pending jobs, each with its delay.
*/
module NotificationJob {
  import opened Wrappers
  import opened JavaLong
  import opened Schedule
  import opened Selection

  /** Minutes to wait after an event starts before looking for the next one. */
  const BUFFER_MINUTES: int := 1
  const MINUTE_MS: int := 60_000
  const BUFFER_MS: int := BUFFER_MINUTES * MINUTE_MS
  /** Delay when no event is found: one hour. */
  const FALLBACK_MS: int := 3_600_000
  /** Delay used by the public `scheduleJob()`: one second. */
  const KICK_MS: int := 1_000
  /** The guard value meaning "no job pending". */
  const NO_JOB: int := -1

  // ---------------------------------------------------------------------
  // Selection
  // ---------------------------------------------------------------------

  /** The entry is an item starting on now's day of the month that is not cancelled. */
  predicate SameDayLive(e: Entry, now: Long, dayOf: Long -> int)
  {
    Complete(e) && dayOf(e.value.start.value) == dayOf(now) && !e.value.cancelled
  }

  /** How far ahead of `now` the entry starts, computed exactly. */
  function Lead(e: Entry, now: Long): int
  {
    if Complete(e) then e.value.start.value - now else 0
  }

  /** A candidate for the notification: today, not cancelled, not yet started. */
  predicate Qualifies(e: Entry, now: Long, dayOf: Long -> int)
  {
    SameDayLive(e, now, dayOf) && Lead(e, now) > 0
  }

  function QualifiesAt(now: Long, dayOf: Long -> int): Entry -> bool
  {
    e => Qualifies(e, now, dayOf)
  }

  function LeadAt(now: Long): Entry -> int
  {
    e => Lead(e, now)
  }

  /**
    The event the notification is about: among the qualifying entries, the
    one starting soonest; on a tie the first in list order.
  */
  function NextEvent(items: seq<Entry>, now: Long, dayOf: Long -> int): (r: Option<ScheduleItem>)
    ensures r.None? <==> forall j :: 0 <= j < |items| ==> !Qualifies(items[j], now, dayOf)
    ensures r.Some? ==>
      && r.value.start.Some?
      && r.value.start.value > now
      && dayOf(r.value.start.value) == dayOf(now)
      && !r.value.cancelled
    ensures r.Some? ==>
      forall j :: 0 <= j < |items| && Qualifies(items[j], now, dayOf) ==>
        r.value.start.value <= items[j].value.start.value
    ensures r.Some? ==>
      exists k :: 0 <= k < |items| && items[k] == r &&
        forall j :: 0 <= j < k && Qualifies(items[j], now, dayOf) ==>
          r.value.start.value < items[j].value.start.value
    ensures r.Some? ==>
      exists k :: 0 <= k < |items| && items[k] == r && FirstLeast(items, QualifiesAt(now, dayOf), LeadAt(now), k)
  {
    match FirstLeastIndex(items, QualifiesAt(now, dayOf), LeadAt(now))
    case None => None
    case Some(k) => items[k]
  }

  /** The start instant of a selected event, if there is one. */
  function StartOf(event: Option<ScheduleItem>): Option<Long>
  {
    if event.Some? then event.value.start else None
  }

  /**
    The delay before the next run: one buffer after the selected event's
    start, or the one-hour fallback when nothing was selected.
  */
  function RearmDelay(selectedStart: Option<Long>, now: Long): (d: int)
    ensures selectedStart.None? ==> d == FALLBACK_MS
    ensures selectedStart.Some? ==> now + d == selectedStart.value + BUFFER_MS
    ensures selectedStart.Some? && selectedStart.value > now ==> d > BUFFER_MS
  {
    match selectedStart
    case None => FALLBACK_MS
    case Some(t) => t - now + BUFFER_MS
  }

  /** Whatever a run selects, the delay it re-arms with is positive. */
  lemma RearmDelayPositive(items: seq<Entry>, now: Long, dayOf: Long -> int)
    ensures RearmDelay(StartOf(NextEvent(items, now, dayOf)), now) > 0
    ensures NextEvent(items, now, dayOf).Some? ==> RearmDelay(StartOf(NextEvent(items, now, dayOf)), now) > BUFFER_MS
  {
  }

  /**
    At the next wake-up, or any instant after it, the event just notified has
    started, so it is never selected again.
  */
  lemma SelectedEventNotReselected(items: seq<Entry>, now: Long, dayOf: Long -> int, later: Long)
    requires NextEvent(items, now, dayOf).Some?
    requires later >= now + RearmDelay(StartOf(NextEvent(items, now, dayOf)), now)
    ensures !Qualifies(NextEvent(items, now, dayOf), later, dayOf)
    ensures later > NextEvent(items, now, dayOf).value.start.value
  {
  }

  // ---------------------------------------------------------------------
  // The selection loop as written, with 64-bit arithmetic
  // ---------------------------------------------------------------------

  /** `start - now` as `onRunJob` computes it at line 68: a `long` subtraction that can wrap. */
  function WrappedLead(e: Entry, now: Long): Long
  {
    if Complete(e) then Sub(e.value.start.value, now) else 0
  }

  /** What the loop as written accepts: its difference must lie strictly between 0 and Long.MAX_VALUE. */
  predicate QualifiesAsWritten(e: Entry, now: Long, dayOf: Long -> int)
  {
    SameDayLive(e, now, dayOf) && 0 < WrappedLead(e, now) < LONG_MAX
  }

  function QualifiesAsWrittenAt(now: Long, dayOf: Long -> int): Entry -> bool
  {
    e => QualifiesAsWritten(e, now, dayOf)
  }

  function WrappedLeadAt(now: Long): Entry -> int
  {
    e => WrappedLead(e, now)
  }

  /** The loop of the job's run, one iteration per call: `difference` starts at Long.MAX_VALUE. */
  function SelectionLoop(items: seq<Entry>, now: Long, dayOf: Long -> int, i: nat,
                         event: Option<ScheduleItem>, difference: Long): Option<ScheduleItem>
    requires NullFree(items)
    requires i <= |items|
    decreases |items| - i
  {
    if i == |items| then
      event
    else if SameDayLive(items[i], now, dayOf) then
      var newDiff := WrappedLead(items[i], now);
      if newDiff > 0 && newDiff < difference then
        SelectionLoop(items, now, dayOf, i + 1, items[i], newDiff)
      else
        SelectionLoop(items, now, dayOf, i + 1, event, difference)
    else
      SelectionLoop(items, now, dayOf, i + 1, event, difference)
  }

  function EventAt(items: seq<Entry>, best: Option<nat>): Option<ScheduleItem>
    requires best.Some? ==> best.value < |items|
  {
    if best.None? then None else items[best.value]
  }

  function DifferenceAt(items: seq<Entry>, now: Long, best: Option<nat>): Long
    requires best.Some? ==> best.value < |items|
  {
    if best.None? then LONG_MAX else WrappedLead(items[best.value], now)
  }

  /** The loop as written keeps the same item as the first-least scan over what it accepts. */
  lemma {:induction false} LoopMatchesScan(items: seq<Entry>, now: Long, dayOf: Long -> int, i: nat, best: Option<nat>)
    requires NullFree(items)
    requires i <= |items|
    requires best.None? <==> forall j :: 0 <= j < i ==> !QualifiesAsWrittenAt(now, dayOf)(items[j])
    requires best.Some? ==> FirstLeast(items[..i], QualifiesAsWrittenAt(now, dayOf), WrappedLeadAt(now), best.value)
    ensures best.Some? ==> best.value < |items|
    ensures ScanFrom(items, QualifiesAsWrittenAt(now, dayOf), WrappedLeadAt(now), i, best).Some? ==>
              ScanFrom(items, QualifiesAsWrittenAt(now, dayOf), WrappedLeadAt(now), i, best).value < |items|
    ensures SelectionLoop(items, now, dayOf, i, EventAt(items, best), DifferenceAt(items, now, best))
         == EventAt(items, ScanFrom(items, QualifiesAsWrittenAt(now, dayOf), WrappedLeadAt(now), i, best))
    decreases |items| - i
  {
    var ok := QualifiesAsWrittenAt(now, dayOf);
    var key := WrappedLeadAt(now);
    if i < |items| {
      var take := ok(items[i]) && (best.None? || key(items[i]) < key(items[best.value]));
      var best' := if take then Some(i) else best;
      ExtendBest(items, ok, key, i, best);
      LoopMatchesScan(items, now, dayOf, i + 1, best');
      if best.Some? {
        assert ok(items[best.value]) by {
          assert items[..i][best.value] == items[best.value];
        }
      }
      assert ScanFrom(items, ok, key, i, best) == ScanFrom(items, ok, key, i + 1, best');
    }
  }

  /**
    The selection as `onRunJob` writes it. Its answer is the first entry of
    least wrapped difference among those the loop accepts.
  */
  function SelectAsWritten(items: seq<Entry>, now: Long, dayOf: Long -> int): (r: Option<ScheduleItem>)
    requires NullFree(items)
    ensures r.None? <==> forall j :: 0 <= j < |items| ==> !QualifiesAsWritten(items[j], now, dayOf)
    ensures r.Some? ==>
      exists k :: 0 <= k < |items| && items[k] == r &&
        FirstLeast(items, QualifiesAsWrittenAt(now, dayOf), WrappedLeadAt(now), k)
  {
    LoopMatchesScan(items, now, dayOf, 0, None);
    SelectionLoop(items, now, dayOf, 0, None, LONG_MAX)
  }

  /** The delay as `onRunJob` computes it at line 86: `start - now + 60000` in `long` arithmetic. */
  function RearmDelayAsWritten(selectedStart: Option<Long>, now: Long): (d: Long)
    ensures selectedStart.None? ==> d == FALLBACK_MS
    ensures selectedStart.Some? && 0 < selectedStart.value - now <= LONG_MAX - BUFFER_MS ==>
              d == RearmDelay(selectedStart, now)
  {
    match selectedStart
    case None => FALLBACK_MS
    case Some(t) => Add(Sub(t, now), BUFFER_MS)
  }

  /** Instants within 2^61 ms (about 73 million years) of the epoch. */
  const NEAR_EPOCH: int := 0x2000_0000_0000_0000

  predicate NearEpoch(t: int)
  {
    -NEAR_EPOCH <= t <= NEAR_EPOCH
  }

  /**
    For instants near the epoch nothing wraps: the code as written and the
    corrected selection and delay agree.
  */
  lemma AsWrittenAgreesNearEpoch(items: seq<Entry>, now: Long, dayOf: Long -> int)
    requires NullFree(items)
    requires NearEpoch(now)
    requires forall j :: 0 <= j < |items| ==> NearEpoch(items[j].value.start.value)
    ensures SelectAsWritten(items, now, dayOf) == NextEvent(items, now, dayOf)
    ensures RearmDelayAsWritten(StartOf(SelectAsWritten(items, now, dayOf)), now)
         == RearmDelay(StartOf(NextEvent(items, now, dayOf)), now)
  {

  }

  /**
    Finding: the `long` subtraction wraps for an event far in the past, so
    the loop as written selects an event that started long before now.
  */
  lemma PastEventSelectedAsWritten()
    ensures var now: Long := 172_800_000;
            var past := ScheduleItem(Some(LONG_MIN + 86_400_000), "Lecture", "Room", false);
            var dayOf: Long -> int := t => 3;
            && past.start.value < now
            && SelectAsWritten([Some(past)], now, dayOf) == Some(past)
            && NextEvent([Some(past)], now, dayOf) == None
  {
  }

  /**
    Finding: the `long` addition of the buffer wraps for an event almost
    Long.MAX_VALUE ms ahead, so the loop as written re-arms with a negative delay.
  */
  lemma NegativeDelayAsWritten()
    ensures var now: Long := LONG_MIN + 5;
            var far := ScheduleItem(Some(3), "Lecture", "Room", false);
            var dayOf: Long -> int := t => 3;
            && SelectAsWritten([Some(far)], now, dayOf) == Some(far)
            && RearmDelayAsWritten(Some(3), now) < 0
            && NextEvent([Some(far)], now, dayOf) == Some(far)
            && RearmDelay(Some(3), now) > 0
  {
  }

  // ---------------------------------------------------------------------
  // The job's state: guard, pending jobs, visible notification
  // ---------------------------------------------------------------------

  /** Job ids handed out by the job library are positive, so never the guard's -1. */
  type JobId = x: int | x >= 1 witness 1

  /** A job request handed to the job library: it runs the job after `delay` ms. */
  datatype PendingJob = PendingJob(id: JobId, delay: int)

  /**
    `runningJobId` is the static guard; `pending` the job library's queue for
    this job's tag; `notification` what is shown under the fixed notification id.
  */
  datatype JobState = JobState(runningJobId: int, pending: seq<PendingJob>, nextId: JobId,
                               notification: Option<ScheduleItem>)

  /** A fresh process: no guard set, nothing pending, nothing shown. */
  function Initial(): (r: JobState)
    ensures Settled(r)
    ensures r.pending == [] && r.notification.None?
  {
    JobState(NO_JOB, [], 1, None)
  }

  /** At most one job pending, and the guard names it. */
  ghost predicate Valid(s: JobState)
  {
    && (s.runningJobId == NO_JOB || s.runningJobId >= 1)
    && |s.pending| <= 1
    && (s.pending != [] ==> s.runningJobId == s.pending[0].id)
  }

  /** Valid, and the guard is clear exactly when nothing is pending. */
  ghost predicate Settled(s: JobState)
  {
    Valid(s) && (s.runningJobId == NO_JOB <==> s.pending == [])
  }

  /** `scheduleJob(long)`: arms a job with the given delay only when the guard is clear. */
  function ScheduleJob(s: JobState, delay: int): (r: JobState)
    ensures s.runningJobId == NO_JOB ==>
      && r.runningJobId >= 1
      && r.pending == s.pending + [PendingJob(r.runningJobId, delay)]
      && r.notification == s.notification
    ensures s.runningJobId != NO_JOB ==> r == s
  {
    if s.runningJobId == NO_JOB then
      s.(runningJobId := s.nextId, pending := s.pending + [PendingJob(s.nextId, delay)], nextId := s.nextId + 1)
    else
      s
  }

  /** `scheduleJob()`: the public trigger, a one-second delay. */
  function Kick(s: JobState): (r: JobState)
    ensures s.runningJobId == NO_JOB ==>
      r.runningJobId >= 1 && r.pending == s.pending + [PendingJob(r.runningJobId, KICK_MS)]
    ensures s.runningJobId != NO_JOB ==> r == s
    ensures r.runningJobId != NO_JOB
  {
    ScheduleJob(s, KICK_MS)
  }

  /** A second trigger changes nothing: from a settled state two triggers leave exactly one pending job. */
  lemma KickTwice(s: JobState)
    ensures Kick(Kick(s)) == Kick(s)
    ensures Settled(s) ==> |Kick(Kick(s)).pending| == 1 && Settled(Kick(s))
  {
  }

  /** A run dereferences every list element, so a null item or null start throws. */
  predicate Crashes(cache: Cache)
  {
    cache.Some? && !NullFree(cache.value)
  }

  /** What the run selects from the cache read; a null cache selects nothing. */
  function Upcoming(cache: Cache, now: Long, dayOf: Long -> int): (r: Option<ScheduleItem>)
    ensures r.None? <==> cache.None? || forall j :: 0 <= j < |cache.value| ==> !Qualifies(cache.value[j], now, dayOf)
    ensures r.Some? ==> r.value.start.Some? && r.value.start.value > now && !r.value.cancelled
  {
    if cache.None? then None else NextEvent(cache.value, now, dayOf)
  }

  /**
    The pending job elapses and the job runs: it selects, shows or withdraws
    the notification, clears the guard and re-arms once. A crash leaves the
    guard and the notification as they were and arms nothing.
  */
  function Fire(s: JobState, now: Long, cache: Cache, dayOf: Long -> int): (r: JobState)
    requires s.pending != []
    ensures Crashes(cache) ==> r == s.(pending := s.pending[1..])
    ensures !Crashes(cache) ==>
      && r.notification == Upcoming(cache, now, dayOf)
      && r.runningJobId >= 1
      && r.pending == s.pending[1..] + [PendingJob(r.runningJobId, RearmDelay(StartOf(r.notification), now))]
    ensures !Crashes(cache) ==> r.pending[|r.pending| - 1].delay > 0
    ensures !Crashes(cache) && Valid(s) ==> |r.pending| == 1 && Settled(r)
  {
    if Crashes(cache) then
      s.(pending := s.pending[1..])
    else
      var event := Upcoming(cache, now, dayOf);
      var cleared := s.(pending := s.pending[1..], notification := event, runningJobId := NO_JOB);
      ScheduleJob(cleared, RearmDelay(StartOf(event), now))
  }

  /** `cancelJob`: drops every pending job, clears the guard and withdraws the notification. */
  function Cancel(s: JobState): (r: JobState)
    ensures r.runningJobId == NO_JOB && r.pending == [] && r.notification.None?
    ensures Settled(r)
  {
    s.(runningJobId := NO_JOB, pending := [], notification := None)
  }

  lemma CancelIdempotent(s: JobState)
    ensures Cancel(Cancel(s)) == Cancel(s)
  {
  }

  /** Every transition keeps at most one job pending, named by the guard. */
  lemma TransitionsKeepValid(s: JobState, now: Long, cache: Cache, dayOf: Long -> int)
    requires Valid(s)
    ensures Valid(Kick(s))
    ensures Valid(Cancel(s))
    ensures s.pending != [] ==> Valid(Fire(s, now, cache, dayOf))
  {
  }

  /**
    After a crashed run the guard still holds the spent job's id while nothing
    is pending: triggers are ignored until the job is cancelled.
  */
  lemma GuardStuckAfterCrash(s: JobState, now: Long, cache: Cache, dayOf: Long -> int)
    requires Valid(s) && s.pending != []
    requires Crashes(cache)
    ensures Fire(s, now, cache, dayOf).pending == []
    ensures Fire(s, now, cache, dayOf).runningJobId != NO_JOB
    ensures Kick(Fire(s, now, cache, dayOf)) == Fire(s, now, cache, dayOf)
    ensures |Kick(Cancel(Fire(s, now, cache, dayOf))).pending| == 1
  {
  }
}
