/** The quiz session (src/App.tsx): the three state cells
    `currentQuestionIndex`, `userAnswers` and `isComplete`, the handler that
    scores a submission and moves on, restart, and the effect that resumes
    saved progress. The logged-in user, the saved progress and the current
    page are passed to the handlers; the calls to `saveProgress` and
    `addEntry` are recorded in two ghost logs. */
module App {
  import opened Types
  import opened Scoring
  import ProgressHook

  const HOME := "home"

  /** A call `saveProgress(lastQuestionIndex, userAnswers)`. */
  datatype SaveCall = SaveCall(lastQuestionIndex: int, userAnswers: seq<UserAnswer>)

  /** A call `addEntry(userId, score, totalQuestions)`. */
  datatype EntryCall = EntryCall(userId: int, score: nat, totalQuestions: nat)

  /** A saved record that describes an unfinished run of `n` questions. */
  predicate Resumable(record: ProgressHook.ProgressRecord, n: nat)
  {
    0 <= record.lastQuestionIndex < n && |record.userAnswers| == record.lastQuestionIndex
  }

  class QuizSession {
    const questions: seq<Question>
    var currentQuestionIndex: int
    var userAnswers: seq<UserAnswer>
    var isComplete: bool
    ghost var saves: seq<SaveCall>
    ghost var entries: seq<EntryCall>

    /** The shape of a run started fresh or by a restart: before completion
        there is one answer per question passed; at completion the index
        rests on the last question and every question has an answer. */
    ghost predicate InRun()
      reads this
    {
      0 < |questions|
      && (if isComplete
          then currentQuestionIndex == |questions| - 1 && |userAnswers| == |questions|
          else 0 <= currentQuestionIndex < |questions| && |userAnswers| == currentQuestionIndex)
    }

    /** The question on screen, `questions[currentQuestionIndex]`. */
    function CurrentQuestion(): (q: Question)
      reads this
      requires 0 <= currentQuestionIndex < |questions|
      ensures q in questions
      ensures InRun() && !isComplete ==> q == questions[|userAnswers|]
    {
      questions[currentQuestionIndex]
    }

    constructor (questions: seq<Question>)
      ensures this.questions == questions
      ensures currentQuestionIndex == 0 && userAnswers == [] && !isComplete
      ensures saves == [] && entries == []
      ensures |questions| > 0 ==> InRun()
    {
      this.questions := questions;
      currentQuestionIndex := 0;
      userAnswers := [];
      isComplete := false;
      saves := [];
      entries := [];
    }

    /** `handleNextQuestion(selectedAnswers)`. It needs a question on screen
        (`questions[currentQuestionIndex]` must exist). The submission is
        scored against the question's `correctAnswers` and appended; the
        progress is saved when a user is logged in; then the index advances,
        or on the last question the session completes and, with a user, the
        score goes to the leaderboard. */
    method NextQuestion(selectedAnswers: seq<string>, user: Option<User>)
      requires 0 <= currentQuestionIndex < |questions|
      modifies this
      ensures var q := old(CurrentQuestion());
        userAnswers == old(userAnswers) + [UserAnswer(q.id, selectedAnswers, IsCorrect(selectedAnswers, q.correctAnswers))]
      ensures old(currentQuestionIndex) < |questions| - 1 ==>
        currentQuestionIndex == old(currentQuestionIndex) + 1 && isComplete == old(isComplete)
      ensures old(currentQuestionIndex) >= |questions| - 1 ==>
        currentQuestionIndex == old(currentQuestionIndex) && isComplete
      ensures saves == old(saves) + if user.Some? then [SaveCall(old(currentQuestionIndex) + 1, userAnswers)] else []
      ensures entries == old(entries) +
        if user.Some? && old(currentQuestionIndex) >= |questions| - 1
        then [EntryCall(user.value.id, Score(userAnswers), |questions|)] else []
      ensures old(InRun()) && !old(isComplete) ==> InRun()
      ensures old(InRun()) && !old(isComplete) && user.Some? ==>
        saves[|saves| - 1].lastQuestionIndex == |userAnswers|
        && (isComplete <==> saves[|saves| - 1].lastQuestionIndex == |questions|)
      ensures old(InRun()) && !old(isComplete) && isComplete && user.Some? ==>
        entries[|entries| - 1].score <= entries[|entries| - 1].totalQuestions == |questions|
    {
      var currentQuestion := questions[currentQuestionIndex];
      var correct := IsCorrect(selectedAnswers, currentQuestion.correctAnswers);
      var answer := UserAnswer(currentQuestion.id, selectedAnswers, correct);
      var newUserAnswers := userAnswers + [answer];
      userAnswers := newUserAnswers;
      if user.Some? {
        saves := saves + [SaveCall(currentQuestionIndex + 1, newUserAnswers)];
      }
      if currentQuestionIndex < |questions| - 1 {
        currentQuestionIndex := currentQuestionIndex + 1;
      } else {
        isComplete := true;
        if user.Some? {
          var score := Score(newUserAnswers);
          entries := entries + [EntryCall(user.value.id, score, |questions|)];
        }
      }
    }

    /** `handleRestart`: back to the first question with no answers. Nothing
        already saved or posted is withdrawn. */
    method Restart()
      modifies this
      ensures currentQuestionIndex == 0 && userAnswers == [] && !isComplete
      ensures saves == old(saves) && entries == old(entries)
      ensures |questions| > 0 ==> InRun()
    {
      currentQuestionIndex := 0;
      userAnswers := [];
      isComplete := false;
    }

    /** The resume effect as written: with saved progress, on the home page
        and before completion, the saved index and answers are adopted as
        they are, without any check; otherwise nothing changes. */
    method Resume(progress: Option<ProgressHook.ProgressRecord>, currentPage: string)
      modifies this
      ensures progress.Some? && currentPage == HOME && !old(isComplete) ==>
        currentQuestionIndex == progress.value.lastQuestionIndex
        && userAnswers == progress.value.userAnswers
      ensures !(progress.Some? && currentPage == HOME && !old(isComplete)) ==>
        currentQuestionIndex == old(currentQuestionIndex) && userAnswers == old(userAnswers)
      ensures isComplete == old(isComplete) && saves == old(saves) && entries == old(entries)
    {
      if progress.Some? && currentPage == HOME && !isComplete {
        currentQuestionIndex := progress.value.lastQuestionIndex;
        userAnswers := progress.value.userAnswers;
      }
    }

    /** The resume effect as evidently intended: a record is adopted only
        when it describes an unfinished run of these questions. */
    method ResumeUnfinished(progress: Option<ProgressHook.ProgressRecord>, currentPage: string)
      modifies this
      ensures progress.Some? && currentPage == HOME && !old(isComplete)
              && Resumable(progress.value, |questions|) ==>
        currentQuestionIndex == progress.value.lastQuestionIndex
        && userAnswers == progress.value.userAnswers
      ensures !(progress.Some? && currentPage == HOME && !old(isComplete)
                && Resumable(progress.value, |questions|)) ==>
        currentQuestionIndex == old(currentQuestionIndex) && userAnswers == old(userAnswers)
      ensures isComplete == old(isComplete) && saves == old(saves) && entries == old(entries)
      ensures old(InRun()) ==> InRun()
    {
      if progress.Some? && currentPage == HOME && !isComplete && Resumable(progress.value, |questions|) {
        currentQuestionIndex := progress.value.lastQuestionIndex;
        userAnswers := progress.value.userAnswers;
      }
    }
  }

  /** A play-through from a restart, without resuming: after `k` submissions
      of `N` questions the index is `k` and there are `k` answers, answer `i`
      being for question `i` with the `i`-th selection; after `N` the session
      is complete with `N` answers, and with a user exactly one leaderboard
      entry, of the count of correct answers out of `N`, was requested. */
  method PlayFromRestart(s: QuizSession, selections: seq<seq<string>>, user: Option<User>)
    requires 0 < |s.questions| && |selections| <= |s.questions|
    modifies s
    ensures |s.userAnswers| == |selections|
    ensures forall i :: 0 <= i < |selections| ==>
      s.userAnswers[i].questionId == s.questions[i].id && s.userAnswers[i].userAnswers == selections[i]
      && s.userAnswers[i].isCorrect == (selections[i] == s.questions[i].correctAnswers)
    ensures |selections| < |s.questions| ==> s.currentQuestionIndex == |selections| && !s.isComplete
    ensures |selections| == |s.questions| ==>
      s.isComplete && s.currentQuestionIndex == |s.questions| - 1 && Score(s.userAnswers) <= |s.questions|
    ensures s.entries == old(s.entries) +
      if user.Some? && |selections| == |s.questions|
      then [EntryCall(user.value.id, Score(s.userAnswers), |s.questions|)] else []
    ensures |s.saves| == |old(s.saves)| + (if user.Some? then |selections| else 0)
    ensures user.Some? && |selections| > 0 ==>
      s.saves[|s.saves| - 1] == SaveCall(|selections|, s.userAnswers)
  {
    s.Restart();
    var k := 0;
    while k < |selections|
      invariant 0 <= k <= |selections|
      invariant s.InRun()
      invariant |s.userAnswers| == k
      invariant s.isComplete <==> k == |s.questions|
      invariant forall i :: 0 <= i < k ==>
        s.userAnswers[i].questionId == s.questions[i].id && s.userAnswers[i].userAnswers == selections[i]
        && s.userAnswers[i].isCorrect == (selections[i] == s.questions[i].correctAnswers)
      invariant s.entries == old(s.entries) +
        if user.Some? && k == |s.questions|
        then [EntryCall(user.value.id, Score(s.userAnswers), |s.questions|)] else []
      invariant |s.saves| == |old(s.saves)| + (if user.Some? then k else 0)
      invariant user.Some? && k > 0 ==> s.saves[|s.saves| - 1] == SaveCall(k, s.userAnswers)
    {
      s.NextQuestion(selections[k], user);
      k := k + 1;
    }
  }

  /** The resume effect re-adopts a finished run: a logged-in user answers
      every question of a quiz, the last save, of `(N, answers)`, completes,
      and after "Try Again" the effect moves the index to `N`, past the last
      question, while `isComplete` is false, so that the page would show
      `questions[N]`, which does not exist. */
  method FinishedRunIsReadopted(questions: seq<Question>, selections: seq<seq<string>>, u: User, now: int)
    returns (index: int, questionCount: nat, complete: bool)
    requires 0 < |questions| && |selections| == |questions|
    ensures index == questionCount == |questions| && !complete
  {
    var session := new QuizSession(questions);
    var store := new ProgressHook.ProgressState();
    PlayFromRestart(session, selections, Some(u));
    assert session.saves[|session.saves| - 1] == SaveCall(|questions|, session.userAnswers);
    var saved := store.SaveProgress(Some(u), |questions|, session.userAnswers, now, true);
    session.Restart();
    session.Resume(store.progress, HOME);
    index, questionCount, complete := session.currentQuestionIndex, |session.questions|, session.isComplete;
  }

  /** With the intended resume the same steps leave an existing question on
      screen. */
  method FinishedRunIsNotReadopted(questions: seq<Question>, selections: seq<seq<string>>, u: User, now: int)
    returns (index: int, questionCount: nat, complete: bool)
    requires 0 < |questions| && |selections| == |questions|
    ensures 0 <= index < questionCount == |questions| && !complete
  {
    var session := new QuizSession(questions);
    var store := new ProgressHook.ProgressState();
    PlayFromRestart(session, selections, Some(u));
    assert session.saves[|session.saves| - 1] == SaveCall(|questions|, session.userAnswers);
    var saved := store.SaveProgress(Some(u), |questions|, session.userAnswers, now, true);
    session.Restart();
    session.ResumeUnfinished(store.progress, HOME);
    index, questionCount, complete := session.currentQuestionIndex, |session.questions|, session.isComplete;
  }
}
