/** The records shared by the quiz components (src/types/index.ts) and the
    authenticated user handed out by the authentication context. */
module Types {

  /** A value that may be absent (the source's `null`/`undefined`). */
  datatype Option<T> = None | Some(value: T)

  /** A quiz question: a sentence whose `_` markers are blanks, the word
      options offered for them, and the expected words left to right. */
  datatype Question = Question(id: int, sentence: string, options: seq<string>, correctAnswers: seq<string>)

  /** One submitted answer: the question it answers, the selected words in
      blank order, and whether they were judged correct when submitted. */
  datatype UserAnswer = UserAnswer(questionId: int, userAnswers: seq<string>, isCorrect: bool)

  /** The logged-in user as the authentication context supplies it. */
  datatype User = User(id: int, username: string, email: string)
}
