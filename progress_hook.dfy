/** The progress hook (src/hooks/useUserProgress.ts): the latest saved
    position of the logged-in user, fetched once and replaced on each save. */
module ProgressHook {
  import opened Types

  /** A saved position: the index to resume at and the answers so far. */
  datatype ProgressRecord = ProgressRecord(
    userId: int, lastQuestionIndex: int, userAnswers: seq<UserAnswer>, timestamp: int)

  /** The adoption rule for the `_limit=1` query's result: its first record,
      or nothing when the list is empty. */
  function Latest(data: seq<ProgressRecord>): (r: Option<ProgressRecord>)
    ensures r.None? <==> data == []
    ensures r.Some? ==> r.value == data[0]
  {
    if |data| > 0 then Some(data[0]) else None
  }

  /** The hook's state cells, and the log of records it has posted. */
  class ProgressState {
    var isLoading: bool
    var progress: Option<ProgressRecord>
    ghost var posted: seq<ProgressRecord>

    constructor ()
      ensures isLoading && progress == None && posted == []
    {
      isLoading := true;
      progress := None;
      posted := [];
    }

    /** `fetchProgress`: without a user only loading ends. Otherwise
        `response` is the list the store returned (`None` when the request
        or its decoding failed); a non-empty list's first record is adopted.
        Loading ends in every case. */
    method FetchProgress(user: Option<User>, response: Option<seq<ProgressRecord>>)
      modifies this
      ensures !isLoading && posted == old(posted)
      ensures user.None? ==> progress == old(progress)
      ensures user.Some? && response.Some? && response.value != [] ==> progress == Some(response.value[0])
      ensures user.Some? && (response.None? || response.value == []) ==> progress == old(progress)
    {
      if user.Some? && response.Some? {
        var latest := Latest(response.value);
        if latest.Some? {
          progress := latest;
        }
      }
      isLoading := false;
    }

    /** `saveProgress`: without a user nothing happens. Otherwise a record of
        the user's id and exactly the given index and answers, stamped `now`,
        is posted; `posted` records the attempt, and `delivered` says whether
        the request completed, in which case the record becomes `progress`. */
    method SaveProgress(user: Option<User>, lastQuestionIndex: int, userAnswers: seq<UserAnswer>,
                        now: int, delivered: bool) returns (record: Option<ProgressRecord>)
      modifies this
      ensures user.None? ==> record == None && posted == old(posted) && progress == old(progress)
      ensures user.Some? ==>
        record == Some(ProgressRecord(user.value.id, lastQuestionIndex, userAnswers, now))
        && posted == old(posted) + [record.value]
        && progress == (if delivered then record else old(progress))
      ensures isLoading == old(isLoading)
    {
      record := None;
      if user.Some? {
        var r := ProgressRecord(user.value.id, lastQuestionIndex, userAnswers, now);
        record := Some(r);
        posted := posted + [r];
        if delivered {
          progress := record;
        }
      }
    }
  }
}
