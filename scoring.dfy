/** The single scoring rule of the quiz (src/App.tsx) and the count of
    correct answers that both the session and the results screen report. */
module Scoring {
  import opened Types

  /** `selected.every((a, i) => a === correct[i]) && selected.length === correct.length`:
      an exact, case-sensitive, order-sensitive match of every position. */
  function IsCorrect(selected: seq<string>, correct: seq<string>): (r: bool)
    ensures r <==> selected == correct
    ensures |selected| != |correct| ==> !r
  {
    (forall i :: 0 <= i < |selected| ==> i < |correct| && selected[i] == correct[i])
    && |selected| == |correct|
  }

  function Credit(a: UserAnswer): nat
  {
    if a.isCorrect then 1 else 0
  }

  /** `answers.filter(a => a.isCorrect).length`. */
  function Score(answers: seq<UserAnswer>): (n: nat)
    ensures n <= |answers|
    ensures n == |answers| <==> forall i :: 0 <= i < |answers| ==> answers[i].isCorrect
    ensures n == 0 <==> forall i :: 0 <= i < |answers| ==> !answers[i].isCorrect
  {
    if answers == [] then 0
    else Score(answers[..|answers| - 1]) + Credit(answers[|answers| - 1])
  }

  /** The score of an extended list is the old score plus the new answer's credit. */
  lemma {:induction false} ScoreAppend(a: seq<UserAnswer>, b: seq<UserAnswer>)
    ensures Score(a + b) == Score(a) + Score(b)
  {
    if b == [] {
      assert a + b == a;
    } else {
      var b' := b[..|b| - 1];
      ScoreAppend(a, b');
      assert (a + b)[..|a + b| - 1] == a + b';
    }
  }
}
