/** The profile page (src/components/Profile.tsx): the user's attempts and
    statistics aggregated over them. */
module Profile {
  import opened Types

  /** A leaderboard record as the profile reads it back. */
  datatype UserAttempt = UserAttempt(id: int, userId: int, score: int, totalQuestions: int, completedAt: int)

  /** The statistics shown. The average is kept as the integer total of the
      scores it is computed from. */
  datatype Stats = Stats(totalAttempts: nat, totalScore: int, bestScore: int, totalQuestionsAnswered: int)

  const INITIAL_STATS := Stats(0, 0, 0, 0)

  /** `data.reduce((sum, a) => sum + a.score, 0)`. */
  function SumScores(data: seq<UserAttempt>): int
  {
    if data == [] then 0 else SumScores(data[..|data| - 1]) + data[|data| - 1].score
  }

  /** `data.reduce((sum, a) => sum + a.totalQuestions, 0)`. */
  function SumQuestions(data: seq<UserAttempt>): int
  {
    if data == [] then 0 else SumQuestions(data[..|data| - 1]) + data[|data| - 1].totalQuestions
  }

  /** `Math.max(...data.map(a => a.score))`, over a non-empty list. */
  function BestScore(data: seq<UserAttempt>): (best: int)
    requires |data| > 0
    ensures forall i :: 0 <= i < |data| ==> data[i].score <= best
    ensures exists i :: 0 <= i < |data| && data[i].score == best
  {
    if |data| == 1 then data[0].score
    else
      var rest := BestScore(data[..|data| - 1]);
      var last := data[|data| - 1].score;
      assert forall i :: 0 <= i < |data| - 1 ==> data[..|data| - 1][i] == data[i];
      if last > rest then last else rest
  }

  /** The statistics of a non-empty list of attempts. */
  function ComputeStats(data: seq<UserAttempt>): (stats: Stats)
    requires |data| > 0
    ensures stats.totalAttempts == |data| && stats.totalScore == SumScores(data)
    ensures stats.totalQuestionsAnswered == SumQuestions(data) && stats.bestScore == BestScore(data)
  {
    Stats(|data|, SumScores(data), BestScore(data), SumQuestions(data))
  }

  /** The average never exceeds the best score: the total of the scores is
      at most the number of attempts times the best. */
  lemma {:induction false} TotalAtMostAttemptsTimesBest(data: seq<UserAttempt>)
    requires |data| > 0
    ensures SumScores(data) <= |data| * BestScore(data)
  {
    var b := BestScore(data);
    SumBounded(data, b);
  }

  lemma {:induction false} SumBounded(data: seq<UserAttempt>, b: int)
    requires forall i :: 0 <= i < |data| ==> data[i].score <= b
    ensures SumScores(data) <= |data| * b
  {
    if data != [] {
      var init := data[..|data| - 1];
      assert forall i :: 0 <= i < |init| ==> init[i] == data[i];
      SumBounded(init, b);
    }
  }

  /** When no attempt scores more than its number of questions, neither do
      the totals. */
  lemma {:induction false} TotalScoreWithinQuestions(data: seq<UserAttempt>)
    requires forall i :: 0 <= i < |data| ==> data[i].score <= data[i].totalQuestions
    ensures SumScores(data) <= SumQuestions(data)
  {
    if data != [] {
      var init := data[..|data| - 1];
      assert forall i :: 0 <= i < |init| ==> init[i] == data[i];
      TotalScoreWithinQuestions(init);
    }
  }

  /** The page's state cells. */
  class ProfileState {
    var attempts: seq<UserAttempt>
    var isLoading: bool
    var stats: Stats

    constructor ()
      ensures attempts == [] && isLoading && stats == INITIAL_STATS
    {
      attempts := [];
      isLoading := true;
      stats := INITIAL_STATS;
    }

    /** `fetchUserAttempts`: without a user nothing happens (not even the
        loading flag changes). Otherwise `response` is the list the store
        returned (`None` when the request or its decoding failed); it
        becomes `attempts` in its own order, and the statistics are replaced
        only when it is non-empty. Loading ends either way. */
    method FetchUserAttempts(user: Option<User>, response: Option<seq<UserAttempt>>)
      modifies this
      ensures user.None? ==>
        attempts == old(attempts) && isLoading == old(isLoading) && stats == old(stats)
      ensures user.Some? ==> !isLoading
      ensures user.Some? ==> attempts == (if response.Some? then response.value else old(attempts))
      ensures user.Some? && response.Some? && |response.value| > 0 ==> stats == ComputeStats(response.value)
      ensures user.Some? && (response.None? || response.value == []) ==> stats == old(stats)
    {
      if user.None? {
        return;
      }
      isLoading := true;
      if response.Some? {
        var data := response.value;
        attempts := data;
        if |data| > 0 {
          stats := ComputeStats(data);
        }
      }
      isLoading := false;
    }
  }
}
