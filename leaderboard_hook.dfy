/** The leaderboard hook (src/hooks/useLeader.ts): the time filter, the
    query it turns into, the fetched entries, and the entries it posts.
    Times are milliseconds since the epoch, as plain integers. */
module LeaderboardHook {
  import opened Types

  /** A stored leaderboard row, already carrying the user's name. */
  datatype LeaderboardEntry = LeaderboardEntry(
    id: int, userId: int, username: string, score: int, totalQuestions: int, completedAt: int)

  /** The body `addEntry` posts. */
  datatype NewEntry = NewEntry(userId: int, score: int, totalQuestions: int, completedAt: int)

  datatype TimeFilter = All | Daily | Weekly | Monthly

  const BASE_URL := "http://localhost:3000/leaderboard?_sort=score&_order=desc"
  const WINDOW_PARAM := "&completedAt_gte="
  const DAY := 86_400_000

  /** What `Date` supplies: the current time, the same moment one calendar
      month earlier (`setMonth(getMonth() - 1)`), and `toISOString`. */
  datatype Clock = Clock(now: int, monthBefore: int -> int, iso: int -> string)

  /** The start of the window a filter selects; `all` has none. One day and
      seven days back are taken as whole multiples of 24 hours. */
  function StartDate(filter: TimeFilter, clock: Clock): (start: Option<int>)
    ensures start.None? <==> filter == All
    ensures filter == Daily ==> start == Some(clock.now - DAY)
    ensures filter == Weekly ==> start == Some(clock.now - 7 * DAY)
    ensures filter == Monthly ==> start == Some(clock.monthBefore(clock.now))
  {
    match filter
    case All => None
    case Daily => Some(clock.now - DAY)
    case Weekly => Some(clock.now - 7 * DAY)
    case Monthly => Some(clock.monthBefore(clock.now))
  }

  /** The URL `fetchLeaderboard` requests: the base query, plus one
      `completedAt_gte` parameter for a filter other than `all`. */
  function QueryUrl(filter: TimeFilter, clock: Clock): (url: string)
    ensures filter == All ==> url == BASE_URL
    ensures filter != All ==> url == BASE_URL + WINDOW_PARAM + clock.iso(StartDate(filter, clock).value)
  {
    var start := StartDate(filter, clock);
    if start.None? then BASE_URL else BASE_URL + WINDOW_PARAM + clock.iso(start.value)
  }

  /** The window start a leaderboard query asks for, read back from its
      URL: the text after the base query and `&completedAt_gte=`, or nothing
      for a URL without that parameter. */
  function RequestedWindow(url: string): (window: Option<string>)
    ensures window.Some? ==> url == BASE_URL + WINDOW_PARAM + window.value
  {
    var prefix := BASE_URL + WINDOW_PARAM;
    if |prefix| <= |url| && url[..|prefix|] == prefix then
      assert url == url[..|prefix|] + url[|prefix|..];
      Some(url[|prefix|..])
    else None
  }

  /** The query carries exactly the filter's window: none for `all`, the
      ISO form of the start date otherwise. */
  lemma QueryUrlWindow(filter: TimeFilter, clock: Clock)
    ensures RequestedWindow(QueryUrl(filter, clock)) ==
      if filter == All then None else Some(clock.iso(StartDate(filter, clock).value))
  {
    var prefix := BASE_URL + WINDOW_PARAM;
    var url := QueryUrl(filter, clock);
    if filter == All {
      assert |url| < |prefix|;
    } else {
      assert url == prefix + clock.iso(StartDate(filter, clock).value);
      assert url[..|prefix|] == prefix;
    }
  }

  /** When `toISOString` is one-to-one, two filters request the same URL
      exactly when they select the same window. */
  lemma SameUrlSameWindow(f1: TimeFilter, f2: TimeFilter, clock: Clock)
    requires forall a, b :: clock.iso(a) == clock.iso(b) ==> a == b
    ensures QueryUrl(f1, clock) == QueryUrl(f2, clock) <==> StartDate(f1, clock) == StartDate(f2, clock)
  {
    QueryUrlWindow(f1, clock);
    QueryUrlWindow(f2, clock);
    if QueryUrl(f1, clock) == QueryUrl(f2, clock) && f1 != All && f2 != All {
      var a, b := StartDate(f1, clock).value, StartDate(f2, clock).value;
      assert clock.iso(a) == clock.iso(b);
    }
  }

  /** The hook's state cells, and the log of entries it has posted. */
  class LeaderboardState {
    var entries: seq<LeaderboardEntry>
    var isLoading: bool
    var timeFilter: TimeFilter
    ghost var posted: seq<NewEntry>

    constructor ()
      ensures entries == [] && isLoading && timeFilter == All && posted == []
    {
      entries := [];
      isLoading := true;
      timeFilter := All;
      posted := [];
    }

    /** `setTimeFilter`. */
    method SetTimeFilter(filter: TimeFilter)
      modifies this
      ensures timeFilter == filter
      ensures entries == old(entries) && isLoading == old(isLoading) && posted == old(posted)
    {
      timeFilter := filter;
    }

    /** `fetchLeaderboard`: request the filter's URL; `response` is the list
      the store returned, `None` when the request or its decoding failed.
      Loading ends either way. */
    method FetchLeaderboard(clock: Clock, response: Option<seq<LeaderboardEntry>>) returns (url: string)
      modifies this
      ensures url == QueryUrl(timeFilter, clock)
      ensures entries == (if response.Some? then response.value else old(entries))
      ensures !isLoading
      ensures timeFilter == old(timeFilter) && posted == old(posted)
    {
      isLoading := true;
      url := QueryUrl(timeFilter, clock);
      if response.Some? {
        entries := response.value;
      }
      isLoading := false;
    }

    /** `addEntry`: post a record of exactly the given user, score and total,
      stamped now. `setTimeFilter(prev => prev)` keeps the filter, so the
      list is not refetched. */
    method AddEntry(userId: int, score: int, totalQuestions: int, now: int) returns (entry: NewEntry)
      modifies this
      ensures entry.userId == userId && entry.score == score
      ensures entry.totalQuestions == totalQuestions && entry.completedAt == now
      ensures posted == old(posted) + [entry]
      ensures timeFilter == old(timeFilter) && entries == old(entries) && isLoading == old(isLoading)
    {
      entry := NewEntry(userId, score, totalQuestions, now);
      posted := posted + [entry];
      timeFilter := timeFilter;
    }
  }
}
