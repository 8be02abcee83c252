/** The results screen (src/components/FeedbackScreen.tsx): the score out of
    the number of questions, a headline, and a review of every question with
    its sentence completed by the correct words. */
module FeedbackScreen {
  import opened Types
  import opened Text
  import opened Sequences
  import opened Scoring
  import SentenceDisplay

  const PERFECT := "Perfect! You got all questions correct!"
  const NO_ANSWER := "No answer provided"
  const SEPARATOR := ", "

  /** The line under the score. */
  function Headline(score: nat, total: nat): (message: string)
    ensures message == PERFECT <==> score == total
  {
    if score == total then PERFECT
    else
      var m := "You got " + NatToString(score) + " out of " + NatToString(total) + " questions correct.";
      assert m[0] == 'Y' && PERFECT[0] == 'P';
      m
  }

  /** `userAnswers.find(a => a.questionId === question.id)`. */
  function AnswerFor(answers: seq<UserAnswer>, q: Question): (answer: Option<UserAnswer>)
    ensures answer.None? <==> forall i :: 0 <= i < |answers| ==> answers[i].questionId != q.id
    ensures answer.Some? ==>
      (exists i :: 0 <= i < |answers| && answers[i] == answer.value
                   && forall j :: 0 <= j < i ==> answers[j].questionId != q.id)
    ensures answer.Some? ==> answer.value.questionId == q.id
  {
    Find(answers, (a: UserAnswer) => a.questionId == q.id)
  }

  /** `userAnswer?.userAnswers.join(', ') || 'No answer provided'`. */
  function YourAnswer(answer: Option<UserAnswer>): (text: string)
    ensures answer.None? ==> text == NO_ANSWER
    ensures answer.Some? && (answer.value.userAnswers == [] || answer.value.userAnswers == [""]) ==>
      text == NO_ANSWER
    ensures answer.Some? && answer.value.userAnswers != [] && answer.value.userAnswers != [""] ==>
      text == Join(answer.value.userAnswers, SEPARATOR)
  {
    if answer.Some? then
      JoinEmpty(answer.value.userAnswers, SEPARATOR);
      var joined := Join(answer.value.userAnswers, SEPARATOR);
      if joined != "" then joined else NO_ANSWER
    else NO_ANSWER
  }

  /** What the review shows for one question. `yourAnswer` and
      `correctAnswer` are present only for a question not answered correctly. */
  datatype ReviewItem = ReviewItem(
    number: nat,
    correct: bool,
    sentence: seq<SentenceDisplay.Cell>,
    yourAnswer: Option<string>,
    correctAnswer: Option<string>)

  /** The review of question `q` at zero-based position `index`. */
  function Review(q: Question, index: nat, answers: seq<UserAnswer>): (item: ReviewItem)
    ensures item.number == index + 1
    ensures item.yourAnswer.None? <==> item.correct
    ensures item.correctAnswer.None? <==> item.correct
    ensures !item.correct ==> item.correctAnswer == Some(Join(q.correctAnswers, SEPARATOR))
    ensures |item.sentence| == Count(q.sentence, SentenceDisplay.BLANK) + 1
  {
    var answer := AnswerFor(answers, q);
    var correct := answer.Some? && answer.value.isCorrect;
    ReviewItem(
      index + 1,
      correct,
      SentenceDisplay.Layout(q.sentence, q.correctAnswers),
      if correct then None else Some(YourAnswer(answer)),
      if correct then None else Some(Join(q.correctAnswers, SEPARATOR)))
  }

  /** `questions.map(...)`: one review per question, in question order. */
  function Reviews(questions: seq<Question>, answers: seq<UserAnswer>): (items: seq<ReviewItem>)
    ensures |items| == |questions|
    ensures forall i :: 0 <= i < |questions| ==> items[i] == Review(questions[i], i, answers)
  {
    seq(|questions|, i requires 0 <= i < |questions| => Review(questions[i], i, answers))
  }

  /** The whole screen. */
  datatype Results = Results(score: nat, total: nat, headline: string, reviews: seq<ReviewItem>)

  function Screen(answers: seq<UserAnswer>, questions: seq<Question>): (r: Results)
    ensures r.score <= |answers| && r.total == |questions|
    ensures r.headline == PERFECT <==> r.score == r.total
    ensures |r.reviews| == |questions|
  {
    var score := Score(answers);
    Results(score, |questions|, Headline(score, |questions|), Reviews(questions, answers))
  }

  /** A question's status comes from the first answer carrying its id; with
      no such answer the question is incorrect and shows "No answer provided". */
  lemma ReviewStatus(q: Question, index: nat, answers: seq<UserAnswer>)
    ensures var item := Review(q, index, answers);
      item.correct <==>
        (exists j :: 0 <= j < |answers| && answers[j].questionId == q.id && answers[j].isCorrect
                     && forall k :: 0 <= k < j ==> answers[k].questionId != q.id)
    ensures (forall j :: 0 <= j < |answers| ==> answers[j].questionId != q.id) ==>
      !Review(q, index, answers).correct && Review(q, index, answers).yourAnswer == Some(NO_ANSWER)
  {
    var p := (a: UserAnswer) => a.questionId == q.id;
    var answer := AnswerFor(answers, q);
    if answer.Some? {
      var j :| 0 <= j < |answers| && answers[j] == answer.value && p(answers[j])
        && forall k :: 0 <= k < j ==> !p(answers[k]);
    }
  }

  /** A review item shows the sentence with blank `k` filled by the question's
      `correctAnswers[k]`, and, when incorrect, the correct words joined by ", ". */
  lemma ReviewShowsSolution(q: Question, index: nat, answers: seq<UserAnswer>, k: nat)
    requires k < Count(q.sentence, SentenceDisplay.BLANK)
    ensures var item := Review(q, index, answers);
      |item.sentence| == Count(q.sentence, SentenceDisplay.BLANK) + 1
      && item.sentence[k].slot == Some(if k < |q.correctAnswers| then q.correctAnswers[k] else "")
      && (!item.correct ==> item.correctAnswer == Some(Join(q.correctAnswers, SEPARATOR)))
  {
  }

  function CorrectReviews(items: seq<ReviewItem>): nat
  {
    if items == [] then 0
    else CorrectReviews(items[..|items| - 1]) + (if items[|items| - 1].correct then 1 else 0)
  }

  lemma {:induction false} CountsAgree(items: seq<ReviewItem>, answers: seq<UserAnswer>)
    requires |items| == |answers|
    requires forall i :: 0 <= i < |items| ==> items[i].correct == answers[i].isCorrect
    ensures CorrectReviews(items) == Score(answers)
  {
    if items != [] {
      CountsAgree(items[..|items| - 1], answers[..|answers| - 1]);
    }
  }

  /** For the answers of one play-through (answer `i` is for question `i`,
      question ids distinct) each review shows that answer's status, and the
      number of reviews marked correct is the displayed score. */
  lemma ReviewsAgreeWithScore(questions: seq<Question>, answers: seq<UserAnswer>)
    requires |answers| == |questions|
    requires forall i :: 0 <= i < |questions| ==> answers[i].questionId == questions[i].id
    requires forall i, j :: 0 <= i < j < |questions| ==> questions[i].id != questions[j].id
    ensures forall i :: 0 <= i < |questions| ==> Reviews(questions, answers)[i].correct == answers[i].isCorrect
    ensures CorrectReviews(Reviews(questions, answers)) == Screen(answers, questions).score
  {
    var items := Reviews(questions, answers);
    forall i | 0 <= i < |questions|
      ensures items[i].correct == answers[i].isCorrect
    {
      ReviewStatus(questions[i], i, answers);
      assert forall k :: 0 <= k < i ==> answers[k].questionId != questions[i].id;
    }
    CountsAgree(items, answers);
  }

  /** After a complete play-through the headline is the "Perfect" one exactly
      when every answer was correct. */
  lemma PerfectIffAllCorrect(answers: seq<UserAnswer>, questions: seq<Question>)
    requires |answers| == |questions|
    ensures Screen(answers, questions).headline == PERFECT <==>
      forall i :: 0 <= i < |answers| ==> answers[i].isCorrect
  {
  }
}
