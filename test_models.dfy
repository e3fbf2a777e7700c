/** The records of the screening-test data model (backend/tests/models.py):
    tests, their questions and answer options, attempt results and the
    answers recorded against a result. Database ids are plain naturals;
    `Option` stands for a nullable column. */
module TestModels {
  import opened Common

  datatype TestMode = WebApp | Telegram | Both

  datatype AnswerOption = AnswerOption(id: nat, text: string, isCorrect: bool, order: int)

  datatype Question = Question(id: nat, text: string, order: int, options: seq<AnswerOption>)

  /** `maxTrialAttempts` is read by the API views but has no column in the
      model file; it is carried here as an ordinary field. */
  datatype Test = Test(
    id: nat,
    title: string,
    description: Option<string>,
    timeLimit: int,              // minutes
    passingScore: int,           // percent
    mode: TestMode,
    randomQuestionsCount: int,   // 0 = every question
    showAnswersImmediately: bool,
    trialQuestionsCount: int,
    maxAttempts: int,
    maxTrialAttempts: int,
    isActive: bool,
    questions: seq<Question>)

  /** One attempt of one user at one test. `isTrial` is, like
      `maxTrialAttempts`, used by the views without a declared column. */
  datatype TestResult = TestResult(
    id: nat,
    testId: nat,
    score: int,
    totalQuestions: int,
    correctAnswers: int,
    startedAt: int,              // seconds
    completedAt: Option<int>,
    timeTaken: int,              // seconds
    attemptNumber: int,
    isCompleted: bool,
    isTrial: bool)

  datatype UserAnswer = UserAnswer(resultId: nat, questionId: nat, optionId: nat, isCorrect: bool)

  /** A question and its options as an importer creates them, before the
      database gives them ids. */
  datatype OptionDraft = OptionDraft(text: string, isCorrect: bool, order: int)

  datatype QuestionDraft = QuestionDraft(text: string, order: int, options: seq<OptionDraft>)

  // ---------------------------------------------------------------------
  // Defaults

  /** A test created with only its title (and the undeclared trial limit)
      given: every other setting takes its column default. */
  function NewTest(id: nat, title: string, maxTrialAttempts: int): (t: Test)
    ensures t.id == id && t.title == title && t.questions == [] && t.description == None
    ensures t.timeLimit == 60 && t.passingScore == 60 && t.mode == Both
    ensures t.randomQuestionsCount == 0 && t.trialQuestionsCount == 10 && t.maxAttempts == 2
    ensures t.showAnswersImmediately && t.isActive && t.maxTrialAttempts == maxTrialAttempts
  {
    Test(id, title, None, 60, 60, Both, 0, true, 10, 2, maxTrialAttempts, true, [])
  }

  /** A result created with its counters given and everything else left to
      the column defaults: first attempt, not completed, no completion time. */
  function NewResult(id: nat, testId: nat, score: int, total: int, correct: int,
                     startedAt: int, timeTaken: int): (r: TestResult)
    ensures r.attemptNumber == 1 && !r.isCompleted && r.completedAt == None && !r.isTrial
    ensures r.id == id && r.testId == testId && r.score == score && r.totalQuestions == total
    ensures r.correctAnswers == correct && r.startedAt == startedAt && r.timeTaken == timeTaken
  {
    TestResult(id, testId, score, total, correct, startedAt, None, timeTaken, 1, false, false)
  }

  // ---------------------------------------------------------------------
  // Derived values

  /** `TestResult.is_passed`: computed from the score and the test's
      threshold every time it is asked for; there is no stored flag. */
  predicate IsPassed(r: TestResult, t: Test) {
    r.score >= t.passingScore
  }

  lemma PassedIsMonotone(r: TestResult, t: Test, better: int)
    requires IsPassed(r, t) && better >= r.score
    ensures IsPassed(r.(score := better), t)
  {
  }

  // ---------------------------------------------------------------------
  // Canonical order of questions and options: by (order, id)

  predicate QuestionBefore(a: Question, b: Question) {
    a.order < b.order || (a.order == b.order && a.id < b.id)
  }

  predicate OptionBefore(a: AnswerOption, b: AnswerOption) {
    a.order < b.order || (a.order == b.order && a.id < b.id)
  }

  predicate QuestionsSorted(qs: seq<Question>) {
    forall i, j :: 0 <= i < j < |qs| ==> QuestionBefore(qs[i], qs[j])
  }

  predicate OptionsSorted(os: seq<AnswerOption>) {
    forall i, j :: 0 <= i < j < |os| ==> OptionBefore(os[i], os[j])
  }

  /** (order, id) is a strict total order on questions with different ids. */
  lemma QuestionOrderIsStrictTotal(a: Question, b: Question, c: Question)
    ensures !QuestionBefore(a, a)
    ensures QuestionBefore(a, b) && QuestionBefore(b, c) ==> QuestionBefore(a, c)
    ensures a.id != b.id ==> QuestionBefore(a, b) || QuestionBefore(b, a)
  {
  }

  // ---------------------------------------------------------------------
  // Uniqueness of (result, question) among user answers

  predicate AnswersUnique(answers: seq<UserAnswer>) {
    forall i, j :: 0 <= i < j < |answers| && answers[i].resultId == answers[j].resultId
      ==> answers[i].questionId != answers[j].questionId
  }

  /** Whether one more answer can be stored without breaking the
      (result, question) uniqueness constraint. */
  predicate CanStore(answers: seq<UserAnswer>, a: UserAnswer) {
    forall i :: 0 <= i < |answers| && answers[i].resultId == a.resultId
      ==> answers[i].questionId != a.questionId
  }

  lemma StoreKeepsUnique(answers: seq<UserAnswer>, a: UserAnswer)
    requires AnswersUnique(answers) && CanStore(answers, a)
    ensures AnswersUnique(answers + [a])
  {
  }
}
