/** The Telegram bot's chat quiz: the per-user conversation state that
    holds a test's questions and the answers given so far, the question
    shown next, the feedback for each answer, and the submission at the
    end. The HTTP responses and the clock are inputs. */
module QuizHandlers {
  import opened Common

  datatype BotOption = BotOption(id: Option<int>, text: string, isCorrect: bool)

  datatype BotQuestion = BotQuestion(id: Option<int>, options: seq<BotOption>)

  /** One `{question_id, option_id}` record of the answer list. */
  datatype AnswerRecord = AnswerRecord(questionId: Option<int>, optionId: int)

  datatype QuizResult = QuizResult(testId: string, answers: seq<AnswerRecord>, timeTaken: int, telegramId: int)

  /** The answer to the result post: created with its pass and CV flags,
      or any other status. */
  datatype SubmitResponse = Created(isPassed: bool, requiresCv: bool) | NotCreated

  const NoQuestionsAlert := "❌ Testda savollar mavjud emas"
  const ErrorAlert := "❌ Xatolik yuz berdi"
  const BadAnswerAlert := "❌ Xatolik"
  const RightText := "✅ To'g'ri!"
  const WrongText := "❌ Noto'g'ri!"
  const RightAnswerIntro := "\n\nTo'g'ri javob: "

  /** `int()` of a float: the fraction is dropped, towards zero. */
  function Truncate(x: real): (n: int)
    ensures x >= 0.0 ==> n as real <= x < n as real + 1.0
    ensures x < 0.0 ==> n as real - 1.0 < x <= n as real
  {
    if x >= 0.0 then x.Floor else -((-x).Floor)
  }

  /** The index of the last option with an id, if any. */
  function LastWithId(options: seq<BotOption>, optionId: int): (r: Option<nat>)
    ensures r.Some? ==>
      r.value < |options| && options[r.value].id == Some(optionId) &&
      forall k :: r.value < k < |options| ==> options[k].id != Some(optionId)
    ensures r.None? ==> forall k :: 0 <= k < |options| ==> options[k].id != Some(optionId)
  {
    if options == [] then None
    else if options[|options| - 1].id == Some(optionId) then Some(|options| - 1)
    else LastWithId(options[..|options| - 1], optionId)
  }

  /** The index of the last option marked correct, if any. */
  function LastCorrect(options: seq<BotOption>): (r: Option<nat>)
    ensures r.Some? ==>
      r.value < |options| && options[r.value].isCorrect &&
      forall k :: r.value < k < |options| ==> !options[k].isCorrect
    ensures r.None? ==> forall k :: 0 <= k < |options| ==> !options[k].isCorrect
  {
    if options == [] then None
    else if options[|options| - 1].isCorrect then Some(|options| - 1)
    else LastCorrect(options[..|options| - 1])
  }

  /** The option scan of an answer: the last option with the chosen id and
      the last option marked correct, either possibly absent. */
  method FindOptions(options: seq<BotOption>, optionId: int) returns (selected: Option<nat>, correct: Option<nat>)
    ensures selected == LastWithId(options, optionId) && correct == LastCorrect(options)
    ensures selected.Some? ==>
      selected.value < |options| && options[selected.value].id == Some(optionId) &&
      forall k :: selected.value < k < |options| ==> options[k].id != Some(optionId)
    ensures selected.None? ==> forall k :: 0 <= k < |options| ==> options[k].id != Some(optionId)
    ensures correct.Some? ==>
      correct.value < |options| && options[correct.value].isCorrect &&
      forall k :: correct.value < k < |options| ==> !options[k].isCorrect
    ensures correct.None? ==> forall k :: 0 <= k < |options| ==> !options[k].isCorrect
  {
    selected, correct := None, None;
    for i := 0 to |options|
      invariant selected == LastWithId(options[..i], optionId) && correct == LastCorrect(options[..i])
    {
      assert options[..i + 1][..i] == options[..i];
      if options[i].id == Some(optionId) {
        selected := Some(i);
      }
      if options[i].isCorrect {
        correct := Some(i);
      }
    }
  }

  /** No two options share an id. */
  predicate DistinctIds(options: seq<BotOption>) {
    forall j, k :: 0 <= j < k < |options| && options[j].id.Some? ==> options[j].id != options[k].id
  }

  /** With distinct ids, the scan finds the chosen option correct exactly
      when the question has an option with that id marked correct. */
  lemma ScanJudgesChosenOption(options: seq<BotOption>, optionId: int, selected: Option<nat>)
    requires selected.Some? ==>
      selected.value < |options| && options[selected.value].id == Some(optionId)
    requires selected.None? ==> forall k :: 0 <= k < |options| ==> options[k].id != Some(optionId)
    requires DistinctIds(options)
    ensures (selected.Some? && options[selected.value].isCorrect) <==>
      exists k :: 0 <= k < |options| && options[k].id == Some(optionId) && options[k].isCorrect
  {
    if k :| 0 <= k < |options| && options[k].id == Some(optionId) && options[k].isCorrect {
      assert selected.Some?;
    }
  }

  /** The alert after an answer: right or wrong, and for a wrong one the
      text of the correct option when the question marks one. */
  function Feedback(options: seq<BotOption>, selected: Option<nat>, correct: Option<nat>): (f: string)
    requires selected.Some? ==> selected.value < |options|
    requires correct.Some? ==> correct.value < |options|
    ensures selected.Some? && options[selected.value].isCorrect ==> f == RightText
    ensures !(selected.Some? && options[selected.value].isCorrect) && correct.Some? ==>
      f == WrongText + RightAnswerIntro + options[correct.value].text
    ensures !(selected.Some? && options[selected.value].isCorrect) && correct.None? ==> f == WrongText
  {
    var isCorrect := selected.Some? && options[selected.value].isCorrect;
    (if isCorrect then RightText else WrongText)
    + (if correct.Some? && !isCorrect then RightAnswerIntro + options[correct.value].text else "")
  }

  /** With distinct ids, the alert after an answer says right exactly when
      the question has an option with the chosen id marked correct. */
  lemma FeedbackIsRightExactly(options: seq<BotOption>, optionId: int)
    requires DistinctIds(options)
    ensures Feedback(options, LastWithId(options, optionId), LastCorrect(options)) == RightText <==>
      exists k :: 0 <= k < |options| && options[k].id == Some(optionId) && options[k].isCorrect
  {
    var selected := LastWithId(options, optionId);
    ScanJudgesChosenOption(options, optionId, selected);
    var f := Feedback(options, selected, LastCorrect(options));
    if !(selected.Some? && options[selected.value].isCorrect) {
      assert f[0] == WrongText[0] != RightText[0];
    }
  }

  /** One user's conversation state while a test runs in the chat. */
  class ChatQuiz {
    /** The user the conversation belongs to. */
    const user: int
    /** The bot's own account, the author of every quiz message. */
    const bot: int

    /** The state holds a test; cleared after the submission. */
    var active: bool
    var testId: string
    var questions: seq<BotQuestion>
    var currentQuestion: nat
    var answers: seq<AnswerRecord>
    var startTime: real
    var showAnswersImmediately: bool
    /** The question whose text and buttons the quiz message shows. */
    var shown: Option<nat>
    /** Every result posted, in order. */
    var posted: seq<QuizResult>

    /** A cleared state holds no questions and no answers; the bot is not
        the user it talks to. */
    predicate Valid()
      reads this
    {
      user != bot && (!active ==> questions == [] && answers == [] && shown.None?)
    }

    constructor (user: int, bot: int)
      requires user != bot
      ensures this.user == user && this.bot == bot
      ensures !active && posted == []
      ensures Valid()
    {
      this.user := user;
      this.bot := bot;
      active := false;
      testId := "";
      questions := [];
      currentQuestion := 0;
      answers := [];
      startTime := 0.0;
      showAnswersImmediately := true;
      shown := None;
      posted := [];
    }

    /** Starting a test from its button. A failed request or a test
        without questions only raises an alert and stores nothing;
        otherwise the state starts at question 0 with no answers and the
        first question is shown. */
    method Start(id: string, response: Option<seq<BotQuestion>>, showSetting: Option<bool>, now: real)
      returns (alert: Option<string>)
      requires Valid()
      modifies this
      ensures response.None? ==> alert == Some(ErrorAlert)
      ensures response == Some([]) ==> alert == Some(NoQuestionsAlert)
      ensures response.None? || response == Some([]) ==>
        active == old(active) && questions == old(questions) && answers == old(answers) && shown == old(shown) &&
        testId == old(testId) && currentQuestion == old(currentQuestion) && startTime == old(startTime) &&
        showAnswersImmediately == old(showAnswersImmediately)
      ensures response.Some? && response.value != [] ==>
        alert.None? && active && testId == id && questions == response.value &&
        currentQuestion == 0 && answers == [] && startTime == now && shown == Some(0) &&
        showAnswersImmediately == (showSetting.None? || showSetting.value)
      ensures posted == old(posted)
      ensures Valid()
    {
      if response.None? {
        return Some(ErrorAlert);
      }
      if response.value == [] {
        return Some(NoQuestionsAlert);
      }
      active := true;
      testId := id;
      questions := response.value;
      currentQuestion := 0;
      answers := [];
      startTime := now;
      showAnswersImmediately := showSetting.None? || showSetting.value;
      shown := Some(0);
      alert := None;
    }

    /** The result as submitted: the answers in the order given, the whole
        seconds since the start, and the telegram id of the user who
        answered. The conversation state is cleared whatever the server
        says; a created result that passes and asks for a CV is followed
        by the request for one. */
    method Complete(now: real, response: SubmitResponse) returns (requestCv: bool)
      requires Valid()
      modifies this
      ensures posted == old(posted) + [QuizResult(old(testId), old(answers), Truncate(now - old(startTime)), user)]
      ensures requestCv <==> response.Created? && response.isPassed && response.requiresCv
      ensures !active && questions == [] && answers == [] && shown.None?
      ensures Valid()
    {
      posted := posted + [QuizResult(testId, answers, Truncate(now - startTime), user)];
      requestCv := response.Created? && response.isPassed && response.requiresCv;
      active := false;
      testId := "";
      questions := [];
      currentQuestion := 0;
      answers := [];
      shown := None;
    }

    /** The submission as the handler writes it: the telegram id is read
        from the author of the quiz message, which is the bot. */
    method CompleteAsWritten(now: real, response: SubmitResponse) returns (requestCv: bool)
      requires Valid()
      modifies this
      ensures posted == old(posted) + [QuizResult(old(testId), old(answers), Truncate(now - old(startTime)), bot)]
      ensures posted[|posted| - 1].telegramId != user
      ensures requestCv <==> response.Created? && response.isPassed && response.requiresCv
      ensures !active && questions == [] && answers == [] && shown.None?
      ensures Valid()
    {
      posted := posted + [QuizResult(testId, answers, Truncate(now - startTime), bot)];
      requestCv := response.Created? && response.isPassed && response.requiresCv;
      active := false;
      testId := "";
      questions := [];
      currentQuestion := 0;
      answers := [];
      shown := None;
    }

    /** Shows the question at an index, or submits once the index is past
        the last question. With `asWritten` the submission is the
        handler's own, posted under the bot's id; otherwise it is posted
        under the user's. */
    method ShowQuestion(index: nat, now: real, response: SubmitResponse, asWritten: bool) returns (requestCv: bool)
      requires Valid()
      modifies this
      ensures index < |old(questions)| ==>
        shown == Some(index) && !requestCv && posted == old(posted) &&
        active == old(active) && questions == old(questions) && answers == old(answers)
      ensures index >= |old(questions)| ==>
        posted == old(posted) + [QuizResult(old(testId), old(answers), Truncate(now - old(startTime)),
          if asWritten then bot else user)] &&
        !active && questions == [] && answers == []
      ensures Valid()
    {
      if index >= |questions| {
        if asWritten {
          requestCv := CompleteAsWritten(now, response);
        } else {
          requestCv := Complete(now, response);
        }
        return;
      }
      shown := Some(index);
      requestCv := false;
    }

    /** An answer button pressed: the button names a question index and an
        option id. An index past the questions is refused and nothing is
        recorded. Otherwise the answer is appended after the earlier ones,
        the feedback for the chosen option is returned when the test shows
        it, and the next index is shown, which submits after the last
        question. */
    method ProcessAnswer(questionIndex: nat, optionId: int, now: real, response: SubmitResponse, asWritten: bool)
      returns (alert: Option<string>, requestCv: bool)
      requires Valid()
      modifies this
      ensures questionIndex >= |old(questions)| ==>
        alert == Some(BadAnswerAlert) && !requestCv &&
        answers == old(answers) && questions == old(questions) && shown == old(shown) && posted == old(posted)
      ensures questionIndex < |old(questions)| && !old(showAnswersImmediately) ==> alert.None?
      ensures questionIndex < |old(questions)| && old(showAnswersImmediately) ==>
        var options := old(questions)[questionIndex].options;
        alert == Some(Feedback(options, LastWithId(options, optionId), LastCorrect(options)))
      ensures questionIndex + 1 < |old(questions)| ==>
        answers == old(answers) + [AnswerRecord(old(questions)[questionIndex].id, optionId)] &&
        shown == Some(questionIndex + 1) && questions == old(questions) && posted == old(posted)
      ensures questionIndex + 1 == |old(questions)| ==>
        posted == old(posted) + [QuizResult(old(testId), old(answers) + [AnswerRecord(old(questions)[questionIndex].id, optionId)],
          Truncate(now - old(startTime)), if asWritten then bot else user)] &&
        !active && answers == []
      ensures Valid()
    {
      if questionIndex >= |questions| {
        return Some(BadAnswerAlert), false;
      }
      var question := questions[questionIndex];
      var selected, correct := FindOptions(question.options, optionId);
      answers := answers + [AnswerRecord(question.id, optionId)];
      alert := None;
      if showAnswersImmediately {
        alert := Some(Feedback(question.options, selected, correct));
      }
      requestCv := ShowQuestion(questionIndex + 1, now, response, asWritten);
    }
  }

  /** Answering every question in turn records one answer per question,
      in order, and the last one submits them all: under the user's id,
      or, as the handlers are written, under the bot's. */
  method AnswerAll(quiz: ChatQuiz, choices: seq<int>, now: real, response: SubmitResponse, asWritten: bool)
    requires quiz.Valid() && quiz.active && quiz.answers == [] && |choices| == |quiz.questions| > 0
    modifies quiz
    ensures |quiz.posted| == |old(quiz.posted)| + 1 && quiz.posted[..|old(quiz.posted)|] == old(quiz.posted)
    ensures |quiz.posted[|old(quiz.posted)|].answers| == |choices|
    ensures forall k :: 0 <= k < |choices| ==>
      quiz.posted[|old(quiz.posted)|].answers[k] == AnswerRecord(old(quiz.questions)[k].id, choices[k])
    ensures quiz.posted[|old(quiz.posted)|].telegramId == if asWritten then quiz.bot else quiz.user
    ensures asWritten ==> quiz.posted[|old(quiz.posted)|].telegramId != quiz.user
    ensures !quiz.active && quiz.Valid()
  {
    var qs := quiz.questions;
    var i := 0;
    while i < |choices| - 1
      invariant 0 <= i <= |choices| - 1
      invariant quiz.Valid() && quiz.questions == qs && quiz.posted == old(quiz.posted)
      invariant |quiz.answers| == i
      invariant forall k :: 0 <= k < i ==> quiz.answers[k] == AnswerRecord(qs[k].id, choices[k])
    {
      var _, _ := quiz.ProcessAnswer(i, choices[i], now, response, asWritten);
      i := i + 1;
    }
    var _, _ := quiz.ProcessAnswer(i, choices[i], now, response, asWritten);
  }
}
