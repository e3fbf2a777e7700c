/** The web app's test page: answers chosen per question, navigation
    between questions, the countdown and the single submission it allows
    at a time. The HTTP calls are inputs: the questions loaded and whether
    the submission was accepted. */
module TestPage {
  import opened Common

  datatype QuestionView = QuestionView(id: nat, options: seq<nat>)

  /** One `{question_id, option_id}` entry of the submitted answers. */
  datatype Entry = Entry(questionId: nat, optionId: nat)

  datatype Submission = Submission(testId: nat, answers: seq<Entry>, timeTaken: int)

  // ---------------------------------------------------------------------
  // The clock

  /** Two digits, a leading zero below ten. */
  function Pad2(n: nat): (r: string)
    requires n < 100
    ensures |r| == 2 && AllDigits(r) && DigitsValue(r) == n
    ensures n < 10 ==> r[0] == '0'
  {
    var r := [DigitChar(n / 10), DigitChar(n % 10)];
    assert r[..1] == [r[0]] && r[..1][..0] == [];
    assert DigitsValue(r[..1]) == n / 10;
    assert DigitsValue(r) == DigitsValue(r[..1]) * 10 + n % 10;
    r
  }

  /** The remaining time as minutes, a colon and two digits of seconds. */
  function FormatTime(seconds: nat): (r: string)
    ensures |r| >= 4 && r[|r| - 3] == ':'
  {
    NatToString(seconds / 60) + ":" + Pad2(seconds % 60)
  }

  /** Reads a clock back: the digits before the colon are minutes, the
      two after it seconds. */
  function ReadTime(t: string): Option<nat> {
    if |t| >= 4 && t[|t| - 3] == ':' && AllDigits(t[..|t| - 3]) && AllDigits(t[|t| - 2..]) then
      Some(DigitsValue(t[..|t| - 3]) * 60 + DigitsValue(t[|t| - 2..]))
    else None
  }

  /** The clock shows exactly the remaining seconds. */
  lemma FormatTimeRoundTrip(seconds: nat)
    ensures ReadTime(FormatTime(seconds)) == Some(seconds)
  {
    var m := NatToString(seconds / 60);
    var t := FormatTime(seconds);
    assert t[..|t| - 3] == m;
    assert t[|t| - 2..] == Pad2(seconds % 60);
    DigitsValueOfNatToString(seconds / 60);
  }

  // ---------------------------------------------------------------------
  // The submitted answers

  predicate IsSmallest(s: set<nat>, k: nat) {
    k in s && forall j :: j in s ==> k <= j
  }

  /** Below any key of a set of naturals there is a smallest key. */
  lemma SmallestExists(s: set<nat>, m: nat)
    requires m in s
    ensures exists k :: IsSmallest(s, k)
    decreases m
  {
    if !(forall j :: j in s ==> m <= j) {
      var j :| j in s && j < m;
      SmallestExists(s, j);
    } else {
      assert IsSmallest(s, m);
    }
  }

  /** The question ids of the entries, in order. */
  function QuestionIds(entries: seq<Entry>): (ids: seq<nat>)
    ensures |ids| == |entries|
    ensures forall i :: 0 <= i < |entries| ==> ids[i] == entries[i].questionId
  {
    seq(|entries|, i requires 0 <= i < |entries| => entries[i].questionId)
  }

  /** The submitted answers for a map of choices: one entry per answered
      question, by ascending question id, each with the option chosen for
      that question. */
  ghost predicate IsPayload(entries: seq<Entry>, answers: map<nat, nat>) {
    |entries| == |answers.Keys| &&
    (forall i :: 0 <= i < |entries| ==>
      entries[i].questionId in answers && answers[entries[i].questionId] == entries[i].optionId) &&
    (forall q :: q in answers <==> q in QuestionIds(entries)) &&
    (forall i, j :: 0 <= i < j < |entries| ==> entries[i].questionId < entries[j].questionId)
  }

  /** The choices determine the submitted answers: two payloads of the
      same choices are the same list. */
  lemma {:induction false} PayloadIsUnique(e1: seq<Entry>, e2: seq<Entry>, answers: map<nat, nat>)
    requires IsPayload(e1, answers) && IsPayload(e2, answers)
    ensures e1 == e2
  {
    forall i | 0 <= i < |e1|
      ensures e1[i] == e2[i]
    {
      SameIdAt(e1, e2, answers, i);
    }
  }

  /** Two ascending lists of the same ids agree at every position. */
  lemma SameIdAt(e1: seq<Entry>, e2: seq<Entry>, answers: map<nat, nat>, i: nat)
    requires IsPayload(e1, answers) && IsPayload(e2, answers) && i < |e1|
    ensures e1[i].questionId == e2[i].questionId
    decreases i
  {
    forall j | 0 <= j < i
      ensures e1[j].questionId == e2[j].questionId
    {
      SameIdAt(e1, e2, answers, j);
    }
    var q1 := e1[i].questionId;
    assert q1 in QuestionIds(e1);
    assert q1 in QuestionIds(e2);
    var j1 :| 0 <= j1 < |e2| && QuestionIds(e2)[j1] == q1;
    var q2 := e2[i].questionId;
    assert q2 in QuestionIds(e2);
    assert q2 in QuestionIds(e1);
    var j2 :| 0 <= j2 < |e1| && QuestionIds(e1)[j2] == q2;
    assert e2[j1].questionId == q1 && e1[j2].questionId == q2;
  }

  /** The answers as the submission carries them. Integer keys are listed
      in ascending order, so the entries come by question id. */
  method AnswersPayload(answers: map<nat, nat>) returns (entries: seq<Entry>)
    ensures IsPayload(entries, answers)
  {
    entries := [];
    var rest := answers.Keys;
    while rest != {}
      invariant rest <= answers.Keys
      invariant |entries| + |rest| == |answers.Keys|
      invariant forall i :: 0 <= i < |entries| ==>
        entries[i].questionId in answers.Keys - rest && answers[entries[i].questionId] == entries[i].optionId
      invariant forall q :: q in answers.Keys - rest <==> q in QuestionIds(entries)
      invariant forall i, j :: 0 <= i < j < |entries| ==> entries[i].questionId < entries[j].questionId
      invariant forall i, q :: 0 <= i < |entries| && q in rest ==> entries[i].questionId < q
      decreases |rest|
    {
      var some :| some in rest;
      SmallestExists(rest, some);
      var k :| IsSmallest(rest, k);
      assert QuestionIds(entries + [Entry(k, answers[k])]) == QuestionIds(entries) + [k];
      entries := entries + [Entry(k, answers[k])];
      rest := rest - {k};
    }
  }

  // ---------------------------------------------------------------------
  // The page

  class TestSession {
    var testId: nat
    var startTime: int
    var questions: seq<QuestionView>
    var current: nat
    /** The chosen option per question id. */
    var answers: map<nat, nat>
    var timeLeft: int
    var loading: bool
    var submitting: bool
    /** The page handed the result on and is done. */
    var completed: bool
    /** Every submission posted, in order. */
    var posted: seq<Submission>

    /** The current question exists whenever there are questions. */
    predicate Valid()
      reads this
    {
      (questions == [] ==> current == 0) && (questions != [] ==> current < |questions|)
    }

    /** A test's page opens on its first question, with no answers and
        the whole time limit, in seconds. */
    constructor (testId: nat, timeLimit: int, startTime: int)
      ensures this.testId == testId && this.startTime == startTime
      ensures questions == [] && current == 0 && answers == map[]
      ensures timeLeft == timeLimit * 60 && loading && !submitting && !completed && posted == []
      ensures Valid()
    {
      this.testId := testId;
      this.startTime := startTime;
      questions := [];
      current := 0;
      answers := map[];
      timeLeft := timeLimit * 60;
      loading := true;
      submitting := false;
      completed := false;
      posted := [];
    }

    /** The questions arrived, or the request failed and none did. */
    method Loaded(response: Option<seq<QuestionView>>)
      requires Valid() && current == 0
      modifies this
      ensures questions == (if response.Some? then response.value else old(questions))
      ensures !loading && current == 0 && answers == old(answers) && timeLeft == old(timeLeft)
      ensures submitting == old(submitting) && completed == old(completed) && posted == old(posted)
      ensures old(questions) == [] ==> Valid()
    {
      if response.Some? {
        questions := response.value;
      }
      loading := false;
    }

    /** Choosing an option replaces any earlier choice for that question
        and leaves every other answer as it was. */
    method Select(questionId: nat, optionId: nat)
      modifies this
      ensures answers == old(answers)[questionId := optionId]
      ensures forall q :: q != questionId ==> (q in answers <==> q in old(answers))
      ensures forall q :: q != questionId && q in answers ==> answers[q] == old(answers)[q]
      ensures questions == old(questions) && current == old(current) && timeLeft == old(timeLeft)
      ensures submitting == old(submitting) && completed == old(completed) && posted == old(posted)
    {
      answers := answers[questionId := optionId];
    }

    /** Clicking one of the current question's options records it as that
        question's answer; a non-zero option enables the next and finish
        buttons. */
    method ChooseOption(k: nat)
      requires Valid() && current < |questions| && k < |questions[current].options|
      modifies this
      ensures answers == old(answers)[old(questions)[old(current)].id := old(questions)[old(current)].options[k]]
      ensures old(questions)[old(current)].options[k] != 0 ==> HasSelection()
      ensures questions == old(questions) && current == old(current) && timeLeft == old(timeLeft)
      ensures submitting == old(submitting) && completed == old(completed) && posted == old(posted)
      ensures Valid()
    {
      Select(questions[current].id, questions[current].options[k]);
    }

    /** The current question has an answer; an option id of 0 counts as
        none, as the page tests the choice for truthiness. */
    predicate HasSelection()
      reads this
    {
      current < |questions| && questions[current].id in answers && answers[questions[current].id] != 0
    }

    predicate OnLastQuestion()
      reads this
    {
      current == |questions| - 1
    }

    /** Moves on, never past the last question. */
    method Next()
      requires Valid()
      modifies this
      ensures current == if old(current) < |questions| - 1 then old(current) + 1 else old(current)
      ensures questions == old(questions) && answers == old(answers) && timeLeft == old(timeLeft)
      ensures submitting == old(submitting) && completed == old(completed) && posted == old(posted)
      ensures Valid()
    {
      if current < |questions| - 1 {
        current := current + 1;
      }
    }

    /** Moves back, never below the first question. */
    method Previous()
      requires Valid()
      modifies this
      ensures current == if old(current) > 0 then old(current) - 1 else old(current)
      ensures questions == old(questions) && answers == old(answers) && timeLeft == old(timeLeft)
      ensures submitting == old(submitting) && completed == old(completed) && posted == old(posted)
      ensures Valid()
    {
      if current > 0 {
        current := current - 1;
      }
    }

    /** The next button, shown before the last question and disabled until
        the current question is answered. */
    method PressNext()
      requires Valid() && !OnLastQuestion()
      modifies this
      ensures current == if old(HasSelection()) && old(current) < |questions| - 1 then old(current) + 1 else old(current)
      ensures questions == old(questions) && answers == old(answers) && timeLeft == old(timeLeft)
      ensures submitting == old(submitting) && completed == old(completed) && posted == old(posted)
      ensures Valid()
    {
      if HasSelection() {
        Next();
      }
    }

    /** One submission was posted and its outcome recorded: the earlier
        posts are kept, the new one carries this test, the whole seconds
        since the start and the payload of the answers; an accepted post
        ends the page and a refused one re-enables the button. */
    twostate predicate PostedOnce(now: int, accepted: bool)
      reads this
    {
      |posted| == |old(posted)| + 1 && posted[..|old(posted)|] == old(posted) &&
      posted[|old(posted)|].testId == testId &&
      posted[|old(posted)|].timeTaken == (now - startTime) / 1000 &&
      IsPayload(posted[|old(posted)|].answers, answers) &&
      submitting == accepted && completed == (old(completed) || accepted)
    }

    /** Submits once: a second call while one is in flight does nothing.
        The answers are posted with the whole seconds elapsed; an accepted
        submission ends the page, a refused one allows another try. */
    method Submit(now: int, accepted: bool)
      modifies this
      ensures old(submitting) ==> posted == old(posted) && submitting && completed == old(completed)
      ensures !old(submitting) ==> PostedOnce(now, accepted)
      ensures questions == old(questions) && current == old(current) && answers == old(answers)
      ensures timeLeft == old(timeLeft) && testId == old(testId) && startTime == old(startTime)
      ensures loading == old(loading) && (old(Valid()) ==> Valid())
    {
      if submitting {
        return;
      }
      submitting := true;
      var entries := AnswersPayload(answers);
      posted := posted + [Submission(testId, entries, (now - startTime) / 1000)];
      if accepted {
        completed := true;
      } else {
        submitting := false;
      }
    }

    /** The finish button on the last question, disabled while submitting
        and until that question is answered. */
    method PressFinish(now: int, accepted: bool)
      requires OnLastQuestion()
      modifies this
      ensures !old(HasSelection()) || old(submitting) ==>
        posted == old(posted) && submitting == old(submitting) && completed == old(completed)
      ensures old(HasSelection()) && !old(submitting) ==> PostedOnce(now, accepted)
      ensures questions == old(questions) && current == old(current) && answers == old(answers)
      ensures timeLeft == old(timeLeft) && testId == old(testId) && startTime == old(startTime)
      ensures loading == old(loading) && (old(Valid()) ==> Valid())
    {
      if !submitting && HasSelection() {
        Submit(now, accepted);
      }
    }

    /** One run of the countdown: while time is left a second passes,
        and once none is left the answers are submitted. */
    method TimerStep(now: int, accepted: bool)
      modifies this
      ensures old(timeLeft) > 0 ==>
        timeLeft == old(timeLeft) - 1 && posted == old(posted) &&
        submitting == old(submitting) && completed == old(completed)
      ensures old(timeLeft) <= 0 ==> timeLeft == old(timeLeft)
      ensures old(timeLeft) <= 0 && !old(submitting) ==> PostedOnce(now, accepted)
      ensures old(timeLeft) <= 0 && old(submitting) ==>
        posted == old(posted) && submitting && completed == old(completed)
      ensures questions == old(questions) && current == old(current) && answers == old(answers)
      ensures testId == old(testId) && startTime == old(startTime)
      ensures loading == old(loading) && (old(Valid()) ==> Valid())
    {
      if timeLeft > 0 {
        timeLeft := timeLeft - 1;
      } else {
        Submit(now, accepted);
      }
    }
  }
}
