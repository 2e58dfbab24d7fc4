/**
  The non-UI decisions of the week-plan screen: which cached items the
  calendar shows for a month, when the initial load fetches, how a fetch
  failure is reported, and when the cache is overwritten.

  The cache read, the stored user, the connection and its RSS fetch are
  parameters: the model decides only what is done with their outcomes.
*/
module WeekPlan {
  import opened Wrappers
  import opened JavaLong
  import opened Schedule

  // ---------------------------------------------------------------------
  // The month filter feeding the calendar
  // ---------------------------------------------------------------------

  /** A real item with a start whose 0-based month (`monthOf`) is the calendar's 1-based `newMonth` minus one. */
  predicate InMonth(e: Entry, newMonth: int, monthOf: Long -> int)
  {
    Complete(e) && monthOf(e.value.start.value) == newMonth - 1
  }

  /** The calendar shows the entry: in the month, and cancelled only when cancelled events are shown. */
  predicate Displayed(e: Entry, newMonth: int, monthOf: Long -> int, showCancelled: bool)
  {
    InMonth(e, newMonth, monthOf) && (e.value.cancelled ==> showCancelled)
  }

  /** Reference definition: the displayed entries of `s`, in list order. */
  function Displayable(s: seq<Entry>, newMonth: int, monthOf: Long -> int, showCancelled: bool): seq<ScheduleItem>
    decreases |s|
  {
    if s == [] then []
    else
      var last := s[|s| - 1];
      Displayable(s[..|s| - 1], newMonth, monthOf, showCancelled)
        + (if Displayed(last, newMonth, monthOf, showCancelled) then [last.value] else [])
  }

  /**
    The month-change listener: reads the cache and keeps the items of the
    requested month, skipping cancelled ones unless they are to be shown.
    The year is not compared.
  */
  method MonthEvents(cache: Cache, newYear: int, newMonth: int, monthOf: Long -> int, showCancelled: bool)
    returns (events: seq<ScheduleItem>)
    ensures cache.None? ==> events == []
    ensures cache.Some? ==> events == Displayable(cache.value, newMonth, monthOf, showCancelled)
    ensures forall k :: 0 <= k < |events| ==>
      && events[k].start.Some?
      && monthOf(events[k].start.value) == newMonth - 1
      && (events[k].cancelled ==> showCancelled)
  {
    events := [];
    if cache.Some? {
      var items := cache.value;
      var i := 0;
      while i < |items|
        invariant 0 <= i <= |items|
        invariant events == Displayable(items[..i], newMonth, monthOf, showCancelled)
        invariant forall k :: 0 <= k < |events| ==>
          && events[k].start.Some?
          && monthOf(events[k].start.value) == newMonth - 1
          && (events[k].cancelled ==> showCancelled)
      {
        var item := items[i];
        assert items[..i + 1][..i] == items[..i];
        if item.Some? && item.value.start.Some? && monthOf(item.value.start.value) == newMonth - 1 {
          if item.value.cancelled {
            if showCancelled {
              events := events + [item.value];
            }
          } else {
            events := events + [item.value];
          }
        }
        i := i + 1;
      }
      assert items[..i] == items;
    }
  }

  /**
    An item is shown exactly when it occurs in the list and is displayed:
    a non-cancelled in-month item always, a cancelled one iff cancelled
    events are shown.
  */
  lemma {:induction false} DisplayableMembers(s: seq<Entry>, newMonth: int, monthOf: Long -> int, showCancelled: bool, x: ScheduleItem)
    ensures x in Displayable(s, newMonth, monthOf, showCancelled)
        <==> Some(x) in s && Displayed(Some(x), newMonth, monthOf, showCancelled)
    decreases |s|
  {
    if s != [] {
      var init := s[..|s| - 1];
      DisplayableMembers(init, newMonth, monthOf, showCancelled, x);
      assert s == init + [s[|s| - 1]];
    }
  }

  /** The filter distributes over concatenation: it decides entry by entry. */
  lemma {:induction false} DisplayableConcat(a: seq<Entry>, b: seq<Entry>, newMonth: int, monthOf: Long -> int, showCancelled: bool)
    ensures Displayable(a + b, newMonth, monthOf, showCancelled)
         == Displayable(a, newMonth, monthOf, showCancelled) + Displayable(b, newMonth, monthOf, showCancelled)
    decreases |b|
  {
    if b != [] {
      var b' := b[..|b| - 1];
      assert (a + b)[..|a + b| - 1] == a + b';
      DisplayableConcat(a, b', newMonth, monthOf, showCancelled);
    } else {
      assert a + b == a;
    }
  }

  /** Strictly increasing positions. */
  ghost predicate Increasing(idx: seq<nat>)
  {
    forall p, q :: 0 <= p < q < |idx| ==> idx[p] < idx[q]
  }

  /**
    The output is an order-preserving subsequence of the cached list that
    picks out every displayed entry: `idx` gives each output item's position.
  */
  lemma {:induction false} DisplayableIsSubsequence(s: seq<Entry>, newMonth: int, monthOf: Long -> int, showCancelled: bool)
    returns (idx: seq<nat>)
    ensures |idx| == |Displayable(s, newMonth, monthOf, showCancelled)|
    ensures Increasing(idx)
    ensures forall k :: 0 <= k < |idx| ==>
      idx[k] < |s| && s[idx[k]] == Some(Displayable(s, newMonth, monthOf, showCancelled)[k])
    ensures forall j :: 0 <= j < |s| && Displayed(s[j], newMonth, monthOf, showCancelled) ==> j in idx
    decreases |s|
  {
    if s == [] {
      idx := [];
    } else {
      var n := |s| - 1;
      var init := s[..n];
      var idx0 := DisplayableIsSubsequence(init, newMonth, monthOf, showCancelled);
      if Displayed(s[n], newMonth, monthOf, showCancelled) {
        idx := idx0 + [n];
      } else {
        idx := idx0;
      }
      forall j | 0 <= j < |s| && Displayed(s[j], newMonth, monthOf, showCancelled)
        ensures j in idx
      {
        if j < n {
          assert init[j] == s[j];
          assert j in idx0;
        }
      }
    }
  }

  // ---------------------------------------------------------------------
  // Loading the week plan
  // ---------------------------------------------------------------------

  /** The exception kinds the load distinguishes. */
  datatype Exception = NoUserStored | BadCredentials | LoginFailed | OtherFailure

  datatype Credential = Credential(username: string, password: string)

  /** What a call into the collaborators did: returned a value or threw. */
  datatype Step<T> = Returned(value: T) | Threw(error: Exception)

  /** An opened connection; `weekplan` is what fetching its RSS week plan yields (possibly null). */
  datatype Connection = Connection(weekplan: Step<Option<seq<Entry>>>)

  /** The background load's outcome: the fetched list (null on failure) and the recorded error. */
  datatype LoadResult = LoadResult(items: Option<seq<Entry>>, error: Option<Exception>)

  /**
    The background part of a load: look up the stored user, open a
    connection with its credential, fetch the RSS week plan. The first step
    that fails records its exception and ends the load with no list.
  */
  function LoadInBackground(user: Option<Credential>, open: Credential -> Step<Connection>): (r: LoadResult)
    ensures user.None? ==> r == LoadResult(None, Some(NoUserStored))
    ensures r.error.Some? ==> r.items.None?
    ensures r.error.None? <==>
      user.Some? && open(user.value).Returned? && open(user.value).value.weekplan.Returned?
    ensures r.error.None? ==> r.items == open(user.value).value.weekplan.value
    ensures user.Some? && open(user.value).Threw? ==> r.error == Some(open(user.value).error)
    ensures user.Some? && open(user.value).Returned? && open(user.value).value.weekplan.Threw? ==>
      r.error == Some(open(user.value).value.weekplan.error)
  {
    match user
    case None => LoadResult(None, Some(NoUserStored))
    case Some(credential) =>
      match open(credential)
      case Threw(e) => LoadResult(None, Some(e))
      case Returned(connection) =>
        match connection.weekplan
        case Threw(e) => LoadResult(None, Some(e))
        case Returned(items) => LoadResult(items, None)
  }

  /** The three messages a failed load can show. */
  datatype ErrorMessage = BadLoginMessage | LoginErrorMessage | ParseMonthPlanErrorMessage

  /** Bad credentials first, then a failed login; every other error shows the parse message. */
  function Classify(e: Exception): (m: ErrorMessage)
    ensures m == BadLoginMessage <==> e == BadCredentials
    ensures m == LoginErrorMessage <==> e == LoginFailed
    ensures m == ParseMonthPlanErrorMessage <==> e != BadCredentials && e != LoginFailed
  {
    match e
    case BadCredentials => BadLoginMessage
    case LoginFailed => LoginErrorMessage
    case _ => ParseMonthPlanErrorMessage
  }

  /** The cache after a load, and the message shown, if any. */
  datatype PostResult = PostResult(cache: Cache, message: Option<ErrorMessage>)

  /**
    The foreground part of a load: report a recorded error, and overwrite the
    cache with the fetched list only when there is one.
  */
  function PostExecute(result: LoadResult, cache: Cache): (r: PostResult)
    ensures r.message.Some? <==> result.error.Some?
    ensures result.error.Some? ==> r.message == Some(Classify(result.error.value))
    ensures result.items.Some? ==> r.cache == result.items
    ensures result.items.None? ==> r.cache == cache
  {
    var message := if result.error.Some? then Some(Classify(result.error.value)) else None;
    var cache' := if result.items.Some? then result.items else cache;
    PostResult(cache', message)
  }

  /** A refresh: the background load followed by its completion. */
  function Refresh(cache: Cache, user: Option<Credential>, open: Credential -> Step<Connection>): (r: PostResult)
    ensures r.message.Some? ==> r.cache == cache
    ensures LoadInBackground(user, open).items.Some? ==>
      r.cache == LoadInBackground(user, open).items && r.message.None?
  {
    PostExecute(LoadInBackground(user, open), cache)
  }

  /** A successful fetch is what the cache then holds, whole: reading it back yields the fetched list. */
  lemma RefreshStoresFetchedList(cache: Cache, user: Option<Credential>, open: Credential -> Step<Connection>, list: seq<Entry>)
    requires user.Some? && open(user.value).Returned?
    requires open(user.value).value.weekplan == Returned(Some(list))
    ensures Refresh(cache, user, open) == PostResult(Some(list), None)
  {
  }

  /** Any failed step leaves the cache as it was and shows the message its exception maps to. */
  lemma RefreshFailureKeepsCache(cache: Cache, user: Option<Credential>, open: Credential -> Step<Connection>)
    requires LoadInBackground(user, open).error.Some?
    ensures Refresh(cache, user, open).cache == cache
    ensures Refresh(cache, user, open).message == Some(Classify(LoadInBackground(user, open).error.value))
  {
  }

  /** Rejected credentials, at login or at the fetch, show the bad-login message and keep the cache. */
  lemma BadCredentialsReported(cache: Cache, credential: Credential, open: Credential -> Step<Connection>)
    requires open(credential) == Threw(BadCredentials)
          || (open(credential).Returned? && open(credential).value.weekplan == Threw(BadCredentials))
    ensures Refresh(cache, Some(credential), open) == PostResult(cache, Some(BadLoginMessage))
  {
  }

  /** With no stored user the load shows the parse-error message, and the cache is kept. */
  lemma NoUserShowsParseMessage(cache: Cache, open: Credential -> Step<Connection>)
    ensures Refresh(cache, None, open) == PostResult(cache, Some(ParseMonthPlanErrorMessage))
  {
  }

  /**
    The initial load: fetch only when the cache read yields null. A cached
    list, even an empty one, is kept as it is and nothing is shown.
  */
  function InitialLoad(cache: Cache, user: Option<Credential>, open: Credential -> Step<Connection>): (r: PostResult)
    ensures cache.Some? ==> r == PostResult(cache, None)
    ensures cache.None? ==> r == Refresh(None, user, open)
  {
    if cache.None? then Refresh(cache, user, open) else PostResult(cache, None)
  }

  /** An empty cached list does not trigger a fetch, even when a fetch would succeed. */
  lemma EmptyCacheNotRefetched(user: Option<Credential>, open: Credential -> Step<Connection>)
    ensures InitialLoad(Some([]), user, open) == PostResult(Some([]), None)
  {
  }
}
