/** Record shapes of the quiz content (lib/quiz-data.ts). */
module QuizData {
  datatype Difficulty = Beginner | Intermediate | Scenario

  datatype Reference = Reference(act: string, section: string, source: string)

  datatype QuizQuestion = QuizQuestion(
    id: string,
    question: string,
    options: seq<string>,
    correctAnswer: int,
    explanation: string,
    reference: Reference,
    difficulty: Difficulty)

  datatype QuizPack = QuizPack(
    id: string,
    title: string,
    description: string,
    difficulty: Difficulty,
    state: string,
    questionsCount: nat,
    estimatedTime: string,
    icon: string,
    color: string)

  datatype Answer = Answer(questionId: string, selectedAnswer: int, isCorrect: bool)

  datatype QuizResult = QuizResult(
    packId: string,
    state: string,
    score: nat,
    totalQuestions: nat,
    completedAt: string,
    answers: seq<Answer>)

  datatype Badge = Badge(id: string, name: string, description: string, icon: string)

  /** The content's own rule: the correct answer indexes one of the options. */
  predicate WellFormed(q: QuizQuestion) {
    0 <= q.correctAnswer < |q.options|
  }
}
