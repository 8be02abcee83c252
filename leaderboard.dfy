/** The leaderboard page (src/components/Leaderboard.tsx): the current user's
    rank banner and the numbered rows. */
module Leaderboard {
  import opened Types
  import opened Sequences
  import opened LeaderboardHook

  /** `user ? entries.findIndex(e => e.userId === user.id) + 1 : null`. */
  function UserRank(entries: seq<LeaderboardEntry>, user: Option<User>): (rank: Option<int>)
    ensures rank.None? <==> user.None?
    ensures rank.Some? ==> 0 <= rank.value <= |entries|
    ensures rank.Some? && rank.value > 0 ==>
      entries[rank.value - 1].userId == user.value.id
      && forall j :: 0 <= j < rank.value - 1 ==> entries[j].userId != user.value.id
    ensures rank == Some(0) <==> user.Some? && forall j :: 0 <= j < |entries| ==> entries[j].userId != user.value.id
  {
    if user.None? then None
    else Some(FindIndex(entries, (e: LeaderboardEntry) => e.userId == user.value.id) + 1)
  }

  /** What `{userRank && <div>...</div>}` puts on the page: `null` renders
      nothing, the number 0 is itself rendered as the text "0", and any other
      rank renders the banner. */
  datatype RankDisplay = Nothing | StrayZero | Banner(rank: int)

  /** The rank area as written. */
  function RankAreaAsWritten(rank: Option<int>): (area: RankDisplay)
    ensures area == Nothing <==> rank.None?
    ensures area == StrayZero <==> rank == Some(0)
    ensures area.Banner? ==> rank == Some(area.rank) && area.rank != 0
  {
    if rank.None? then Nothing
    else if rank.value == 0 then StrayZero
    else Banner(rank.value)
  }

  /** Whether the rank banner is shown: the rank is neither `null` nor 0. */
  predicate ShowsBanner(rank: Option<int>)
    ensures ShowsBanner(rank) <==> RankAreaAsWritten(rank).Banner?
  {
    rank.Some? && rank.value != 0
  }

  /** The rank area as evidently intended: the banner for a found rank and
      nothing otherwise. */
  function RankArea(rank: Option<int>): (area: RankDisplay)
    ensures area != StrayZero
    ensures area.Banner? <==> ShowsBanner(rank)
    ensures area.Banner? ==> area == RankAreaAsWritten(rank)
  {
    if ShowsBanner(rank) then Banner(rank.value) else Nothing
  }

  /** A logged-in user without an entry sees a bare "0" where the banner
      would be; the intended rank area shows nothing. The two differ on this
      case only. */
  lemma NoEntryShowsZero(entries: seq<LeaderboardEntry>, user: Option<User>)
    requires user.Some? && forall j :: 0 <= j < |entries| ==> entries[j].userId != user.value.id
    ensures RankAreaAsWritten(UserRank(entries, user)) == StrayZero
    ensures RankArea(UserRank(entries, user)) == Nothing
  {
  }

  lemma RankAreasAgree(rank: Option<int>)
    ensures RankAreaAsWritten(rank) == RankArea(rank) <==> rank != Some(0)
  {
  }

  /** The banner appears exactly when a user is logged in and one of the
      entries is theirs; it then reports a rank between 1 and the number of
      entries, the entry count being the "of" figure. */
  lemma BannerShown(entries: seq<LeaderboardEntry>, user: Option<User>)
    ensures ShowsBanner(UserRank(entries, user)) <==>
      user.Some? && exists j :: 0 <= j < |entries| && entries[j].userId == user.value.id
    ensures ShowsBanner(UserRank(entries, user)) ==> 1 <= UserRank(entries, user).value <= |entries|
  {
    if user.Some? && exists j :: 0 <= j < |entries| && entries[j].userId == user.value.id {
      var j :| 0 <= j < |entries| && entries[j].userId == user.value.id;
      assert UserRank(entries, user) != Some(0);
    }
  }

  /** One table row: its rank label, its entry, and whether it is marked as
      the current user's ("You", highlighted). */
  datatype Row = Row(rank: nat, entry: LeaderboardEntry, isYou: bool)

  /** `user && entry.userId === user.id`: a row is the user's exactly when
      that entry alone would rank the user first. */
  function IsYou(entry: LeaderboardEntry, user: Option<User>): (b: bool)
    ensures b ==> user.Some?
    ensures b <==> UserRank([entry], user) == Some(1)
  {
    user.Some? && entry.userId == user.value.id
  }

  /** `entries.map((entry, index) => <tr>...)`. */
  function Rows(entries: seq<LeaderboardEntry>, user: Option<User>): (rows: seq<Row>)
    ensures |rows| == |entries|
    ensures forall k :: 0 <= k < |rows| ==> rows[k].rank == k + 1 && rows[k].entry == entries[k]
    ensures forall k :: 0 <= k < |rows| ==> (rows[k].isYou <==> IsYou(entries[k], user))
  {
    seq(|entries|, k requires 0 <= k < |entries| => Row(k + 1, entries[k], IsYou(entries[k], user)))
  }

  /** The banner and the table agree: a shown rank `r` labels the first row
      marked "You"; with no banner no row is marked. */
  lemma BannerMatchesRows(entries: seq<LeaderboardEntry>, user: Option<User>)
    ensures var rank := UserRank(entries, user);
      var rows := Rows(entries, user);
      if ShowsBanner(rank) then
        rows[rank.value - 1].isYou && rows[rank.value - 1].rank == rank.value
        && forall k :: 0 <= k < rank.value - 1 ==> !rows[k].isYou
      else
        forall k :: 0 <= k < |rows| ==> !rows[k].isYou
  {
    BannerShown(entries, user);
  }
}
