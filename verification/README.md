# Week-plan notification job and week-plan cache decisions (Dafny model)

This project models two pieces of the Thaw timetable app.

1. The "next event" notification job, `StaticWeekPlanNotificationJob`. At each run it reads the cached timetable. It picks the soonest event that starts on now's day of the month, is not cancelled and starts after now. Only the day of the month is compared, not the month or the year. It shows that event in the single notification, or withdraws the notification. It then re-arms itself: one minute after that event's start, or after one hour when there is none. A static `runningJobId` guard keeps at most one job pending. `cancelJob` clears the guard and withdraws the notification.
2. The non-UI decisions of `WeekPlanFragment`:
   - the month filter that feeds the calendar;
   - the initial load, which fetches only when the cache read yields null;
   - the background load: stored user, then connection, then RSS week plan;
   - the mapping from a recorded error to the message shown;
   - the rule that the cache is overwritten only when a list was fetched.

Modules:

- `JavaLong`: Java's 64-bit `long`, with wrap-around written out (`Sub`, `Add`).
- `Schedule`: `ScheduleItem` (nullable start, title, location, cancelled flag), list entries that may be null, and the cache read as `Option<seq<Entry>>`.
- `Selection`: a generic left-to-right scan that keeps the first element of least key. It replaces the current best only on a strictly smaller key, as the job's loop does.
- `NotificationJob`: selection, re-arm delay and the job's state machine. The state is the guard, the pending job requests (id and delay) and the visible notification. It also holds the selection loop exactly as written with `long` arithmetic, compared with the corrected one (see Findings).
- `WeekPlan`: the month filter (a loop method plus a reference definition), the load pipeline and the error classification.

Time is an integer millisecond instant. The calendar's day of month (`dayOf`) and 0-based month (`monthOf`) are uninterpreted function parameters. "Now", the cache contents, the stored user, the connection and the RSS result are all parameters.

Facts about the code that shape the model:
- the job always skips cancelled items;
- no delay clamp exists: a positive delay follows from the `newDiff > 0` test at StaticWeekPlanNotificationJob.java line 69;
- refreshes are not single-flight: each refresh starts its own load;
- the fetch has no timeout;
- a successful refresh does not trigger the notification job.

The job's state machine (`NotificationJob.Fire`) selects and computes its delay in exact arithmetic. The code as written uses 64-bit `long` arithmetic, which can wrap for instants hundreds of millions of years apart; that version is modelled separately (see Findings).

## Model

| member | source | states |
|---|---|---|
| Selection.ScanFrom | app/src/main/java/de/be/thaw/util/job/jobs/StaticWeekPlanNotificationJob.java:59-75 | From a prefix where the best so far is the first least accepted element, the scan ends with the first least accepted element of the whole list, or none exactly when nothing is accepted |
| Selection.ExtendBest | app/src/main/java/de/be/thaw/util/job/jobs/StaticWeekPlanNotificationJob.java:69-72 | Replacing the best only on a strictly smaller key keeps "first least in the prefix" true one element further |
| Selection.FirstLeastIndex | app/src/main/java/de/be/thaw/util/job/jobs/StaticWeekPlanNotificationJob.java:57-75 | The kept position is accepted, has the least key of all accepted ones, and every earlier accepted one has a strictly larger key; none iff nothing is accepted |
| Selection.FirstLeastUnique | app/src/main/java/de/be/thaw/util/job/jobs/StaticWeekPlanNotificationJob.java:69-72 | At most one position is first-least, so the strict `<` fixes the tie-break: the earliest in list order |
| NotificationJob.NextEvent | app/src/main/java/de/be/thaw/util/job/jobs/StaticWeekPlanNotificationJob.java:56-76 | None iff no entry is on now's day of month, not cancelled and strictly in the future. Otherwise the event is such an entry, its start is not later than any other candidate's, and it is the first in the list among those with that start |
| NotificationJob.Upcoming | app/src/main/java/de/be/thaw/util/job/jobs/StaticWeekPlanNotificationJob.java:48-58 | A null cache read selects nothing; otherwise none iff no cached entry qualifies, and a selected event starts after now and is not cancelled |
| NotificationJob.RearmDelay | app/src/main/java/de/be/thaw/util/job/jobs/StaticWeekPlanNotificationJob.java:83-89 | With an event, the job wakes exactly one buffer (60000 ms) after its start, and the delay exceeds the buffer when the start is in the future; without one, the delay is one hour |
| NotificationJob.RearmDelayPositive | app/src/main/java/de/be/thaw/util/job/jobs/StaticWeekPlanNotificationJob.java:34-38 | Whatever a run selects, the delay it re-arms with is positive; with an event it exceeds one minute |
| NotificationJob.SelectedEventNotReselected | app/src/main/java/de/be/thaw/util/job/jobs/StaticWeekPlanNotificationJob.java:34-38 | At the re-armed wake-up, or any later instant, the event just notified has started and no longer qualifies |
| NotificationJob.SelectAsWritten | app/src/main/java/de/be/thaw/util/job/jobs/StaticWeekPlanNotificationJob.java:56-76 | The loop as written, with the Long.MAX_VALUE sentinel and wrapping subtraction, returns the first entry of least wrapped difference among same-day, non-cancelled entries whose wrapped difference is strictly between 0 and Long.MAX_VALUE; none iff there is no such entry |
| NotificationJob.LoopMatchesScan | app/src/main/java/de/be/thaw/util/job/jobs/StaticWeekPlanNotificationJob.java:59-75 | The loop's (event, difference) pair tracks the first-least scan: the sentinel stands for "none yet", and the item it ends with is the scan's |
| NotificationJob.RearmDelayAsWritten | app/src/main/java/de/be/thaw/util/job/jobs/StaticWeekPlanNotificationJob.java:83-89 | The delay with `long` arithmetic: one hour without an event; equal to the exact delay whenever the difference plus the buffer fits in a `long` |
| NotificationJob.AsWrittenAgreesNearEpoch | app/src/main/java/de/be/thaw/util/job/jobs/StaticWeekPlanNotificationJob.java:68-86 | When now and every start lie within 2^61 ms of the epoch, the loop as written selects the same event and re-arms with the same delay as the corrected model |
| NotificationJob.PastEventSelectedAsWritten | app/src/main/java/de/be/thaw/util/job/jobs/StaticWeekPlanNotificationJob.java:68-70 | Counterexample: an event that started long before now is selected by the loop as written and rejected by the corrected selection |
| NotificationJob.NegativeDelayAsWritten | app/src/main/java/de/be/thaw/util/job/jobs/StaticWeekPlanNotificationJob.java:86-86 | Counterexample: the loop as written selects an event almost Long.MAX_VALUE ms ahead and re-arms with a negative delay, where the corrected delay is positive |
| NotificationJob.Initial | app/src/main/java/de/be/thaw/util/job/jobs/StaticWeekPlanNotificationJob.java:40-40 | A fresh process has the guard at -1, nothing pending and nothing shown, so it is settled: every reachable state starts valid |
| NotificationJob.ScheduleJob | app/src/main/java/de/be/thaw/util/job/jobs/StaticWeekPlanNotificationJob.java:133-140 | With the guard clear, exactly one request with the given delay is added and the guard now names it; with the guard set, nothing changes |
| NotificationJob.Kick | app/src/main/java/de/be/thaw/util/job/jobs/StaticWeekPlanNotificationJob.java:124-126 | The public trigger arms a one-second request only when the guard is clear; afterwards the guard is always set |
| NotificationJob.KickTwice | app/src/main/java/de/be/thaw/util/job/jobs/StaticWeekPlanNotificationJob.java:124-140 | A second trigger changes nothing; from a settled state, two triggers leave exactly one pending job |
| NotificationJob.Fire | app/src/main/java/de/be/thaw/util/job/jobs/StaticWeekPlanNotificationJob.java:44-92 | A completed run shows the selected event, or withdraws the notification when none is selected. It re-arms once with a positive delay. From a valid state it leaves exactly one pending job, named by the guard. A run that hits a null entry leaves guard and notification untouched and arms nothing |
| NotificationJob.Cancel | app/src/main/java/de/be/thaw/util/job/jobs/StaticWeekPlanNotificationJob.java:145-153 | Nothing is pending, the guard is -1 and the notification is withdrawn, whatever the state before |
| NotificationJob.CancelIdempotent | app/src/main/java/de/be/thaw/util/job/jobs/StaticWeekPlanNotificationJob.java:145-153 | Cancelling twice is the same as cancelling once |
| NotificationJob.TransitionsKeepValid | app/src/main/java/de/be/thaw/util/job/jobs/StaticWeekPlanNotificationJob.java:133-140 | Trigger, run and cancel each keep at most one pending job, and the guard names it |
| NotificationJob.GuardStuckAfterCrash | app/src/main/java/de/be/thaw/util/job/jobs/StaticWeekPlanNotificationJob.java:61-82 | After a run that throws on a null entry, nothing is pending but the guard is still set, so triggers are ignored until a cancel, after which one trigger arms again |
| WeekPlan.MonthEvents | app/src/main/java/de/be/thaw/fragments/WeekPlanFragment.java:203-233 | A null cache gives no events. Otherwise the events are the displayed entries in list order. Each has a start in month `newMonth - 1` and is cancelled only if cancelled events are shown. The year is ignored |
| WeekPlan.DisplayableMembers | app/src/main/java/de/be/thaw/fragments/WeekPlanFragment.java:215-229 | An item is shown iff it is in the list with a start in the month and is either not cancelled or cancelled events are shown |
| WeekPlan.DisplayableConcat | app/src/main/java/de/be/thaw/fragments/WeekPlanFragment.java:214-230 | Filtering a concatenation is concatenating the filtered parts: each entry is decided on its own |
| WeekPlan.DisplayableIsSubsequence | app/src/main/java/de/be/thaw/fragments/WeekPlanFragment.java:212-232 | The output is an order-preserving subsequence of the cached list, and every displayed entry's position is among those picked |
| WeekPlan.LoadInBackground | app/src/main/java/de/be/thaw/fragments/WeekPlanFragment.java:339-365 | No stored user records that error. A failing connection or RSS fetch records the exception it threw. Every failing step yields no list. No error iff every step returned, and then the list is what the RSS fetch returned, possibly null |
| WeekPlan.Classify | app/src/main/java/de/be/thaw/fragments/WeekPlanFragment.java:387-398 | Bad-login message iff bad credentials; login-error message iff login failed; parse message for every other error |
| WeekPlan.PostExecute | app/src/main/java/de/be/thaw/fragments/WeekPlanFragment.java:382-412 | A message is shown iff an error was recorded, classified as above. A fetched list wholesale replaces the cache; without one the cache is unchanged |
| WeekPlan.Refresh | app/src/main/java/de/be/thaw/fragments/WeekPlanFragment.java:313-315 | A refresh that shows an error leaves the cache as it was; a load that fetched a list replaces the cache with it and shows no error |
| WeekPlan.RefreshStoresFetchedList | app/src/main/java/de/be/thaw/fragments/WeekPlanFragment.java:400-406 | After a successful fetch, reading the cache yields exactly the fetched list, and no error is shown |
| WeekPlan.RefreshFailureKeepsCache | app/src/main/java/de/be/thaw/fragments/WeekPlanFragment.java:387-406 | Any failure keeps the previous cache and shows the message its exception maps to |
| WeekPlan.BadCredentialsReported | app/src/main/java/de/be/thaw/fragments/WeekPlanFragment.java:390-391 | Rejected credentials, at connection or at fetch, show the bad-login message and keep the cache |
| WeekPlan.NoUserShowsParseMessage | app/src/main/java/de/be/thaw/fragments/WeekPlanFragment.java:341-346 | With no stored user the cache is kept and the parse-error message is shown, because that error is neither of the two login kinds |
| WeekPlan.InitialLoad | app/src/main/java/de/be/thaw/fragments/WeekPlanFragment.java:290-306 | A null cache read triggers a refresh. Any cached list, even an empty one, is kept unchanged with no message, whatever a fetch would have returned |
| WeekPlan.EmptyCacheNotRefetched | app/src/main/java/de/be/thaw/fragments/WeekPlanFragment.java:299-305 | An empty cached list does not trigger a fetch, even when a fetch would succeed |

## Left out

- Android UI: the week view, snackbar, dialogs, click and long-press listeners, date/time interpreters, event colours, saved-instance and configuration handling. These are presentation only.
- The display-days preference memo (`getDisplayableDays`) and `isActivated`. These are preference reads with no decision in them.
- Notification building: text, channel, icon, priority. The single notification slot under the fixed id 2 is modelled as an `Option<ScheduleItem>`.
- The job library and `AsyncTask` threading. A job request is an (id, delay) pair in a list. Ids are positive, as the library hands them out. A run always consumes the first pending request. Concurrency is not modelled.
- The effect of an exception thrown out of a run is assumed: the job library records the run as failed and does not re-arm. The library is not part of this model.
- The static guard lives in the process. A process restart resets it to -1 while the library may keep a persisted request. Process lifecycle is not modelled.
- `ZPAConnection`, RSS parsing and `Auth`/`Credential` lookup are foreign code. Their outcomes are parameters: an optional stored user, and a function from credential to "connection or exception". The connection carries its RSS outcome. Exceptions are the four kinds the code tells apart.
- `ScheduleUtil` serialisation. A failed read is the same null the code produces. A store's swallowed `IOException` is not modelled: the store is assumed to succeed.
- `Calendar`/`Date` time zones and the calendar itself. `dayOf` and `monthOf` are uninterpreted.
- `showCancelledEvents()` reads the preference once per cancelled item. The model reads it once per filter call.
- Overlapping refreshes. The code has no single-flight check, so each refresh is an independent `Refresh`. Each completion overwrites the cache in completion order. There is no fetch timeout.
- NotificationJob.Fire: selects with `NextEvent` and re-arms with `RearmDelay`, both in exact arithmetic. It agrees with lines 68-86 as written (64-bit `long` arithmetic) only when now and every start lie within 2^61 ms of the epoch, as `AsWrittenAgreesNearEpoch` proves; the as-written behaviour outside that range is shown by `SelectAsWritten` and `RearmDelayAsWritten`.
- NotificationJob.RearmDelay: the corrected delay is an unbounded integer. It does not model the 64-bit range `setExact` accepts, which only matters for events more than about 292 million years ahead.

## Findings

| source | as written | input that shows it | evidently intended | confidence | as-written member | corrected member |
|---|---|---|---|---|---|---|
| app/src/main/java/de/be/thaw/util/job/jobs/StaticWeekPlanNotificationJob.java:68-69 | `newDiff` is a `long` subtraction that wraps | now = 172800000 (3 January 1970), and one item on the same day of month starting at Long.MIN_VALUE + 86400000: the wrapped difference is positive, so an event that started long ago is selected | only events starting after now are selected | low, not executed; needs a start about 292 million years in the past, and whether the calendar puts both instants on the same day of month was not established | NotificationJob.SelectAsWritten, shown by NotificationJob.PastEventSelectedAsWritten | NotificationJob.NextEvent |
| app/src/main/java/de/be/thaw/util/job/jobs/StaticWeekPlanNotificationJob.java:86 | the buffer is added to the difference in `long` arithmetic, which wraps | now = Long.MIN_VALUE + 5, and one item on the same day of month starting at 3: the difference is Long.MAX_VALUE - 1, so the delay wraps to a negative value | the job re-arms with a positive delay | low, not executed; needs instants at opposite ends of the `long` range | NotificationJob.RearmDelayAsWritten, shown by NotificationJob.NegativeDelayAsWritten | NotificationJob.RearmDelay |
