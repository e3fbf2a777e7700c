/** Scoring of a submitted answer batch (`TestResultCreateSerializer.create`)
    and the position a newly created user receives (`UserCreateSerializer.create`),
    both in backend/api/serializers.py. */
module Serializers {
  import opened Common
  import opened TestModels

  // ---------------------------------------------------------------------
  // Scoring

  /** One entry of the submitted `answers` list; a key missing from the
      entry reads as `None`. */
  datatype SubmittedAnswer = SubmittedAnswer(questionId: Option<int>, optionId: Option<int>)

  datatype GradeError =
    | TestNotFound        // missing or inactive test: a validation error
    | DuplicateAnswer     // a second answer for one question: the uniqueness constraint fails

  datatype Graded = Graded(correct: nat, answers: seq<UserAnswer>)

  datatype GradeOutcome = Ok(graded: Graded) | Err(error: GradeError)

  /** The first question of the list with the given id (ids are primary keys). */
  function FindQuestion(qs: seq<Question>, id: Option<int>): (r: Option<Question>)
    ensures r.Some? ==> r.value in qs && id == Some(r.value.id as int)
    ensures r.None? ==> forall q :: q in qs ==> id != Some(q.id as int)
  {
    if qs == [] then None
    else if id == Some(qs[0].id as int) then Some(qs[0])
    else FindQuestion(qs[1..], id)
  }

  function FindOption(os: seq<AnswerOption>, id: Option<int>): (r: Option<AnswerOption>)
    ensures r.Some? ==> r.value in os && id == Some(r.value.id as int)
    ensures r.None? ==> forall o :: o in os ==> id != Some(o.id as int)
  {
    if os == [] then None
    else if id == Some(os[0].id as int) then Some(os[0])
    else FindOption(os[1..], id)
  }

  /** What one submitted pair turns into: nothing when its question is not
      in this test or its option is not in that question, otherwise the
      answer record with the option's correctness copied onto it. */
  function AcceptOne(t: Test, resultId: nat, a: SubmittedAnswer): (r: seq<UserAnswer>)
    ensures |r| <= 1
  {
    match FindQuestion(t.questions, a.questionId)
    case None => []
    case Some(q) =>
      match FindOption(q.options, a.optionId)
      case None => []
      case Some(o) => [UserAnswer(resultId, q.id, o.id, o.isCorrect)]
  }

  function AcceptFn(t: Test, resultId: nat): SubmittedAnswer -> seq<UserAnswer> {
    a => AcceptOne(t, resultId, a)
  }

  /** The answer records a batch asks for, in submission order. */
  function Accepted(t: Test, resultId: nat, batch: seq<SubmittedAnswer>): seq<UserAnswer> {
    FlatMap(AcceptFn(t, resultId), batch)
  }

  /** The results of `f` on the elements of `s`, concatenated in order. */
  function FlatMap<A, B>(f: A -> seq<B>, s: seq<A>): seq<B> {
    if s == [] then [] else FlatMap(f, s[..|s| - 1]) + f(s[|s| - 1])
  }

  lemma {:induction false} FlatMapAppend<A, B>(f: A -> seq<B>, x: seq<A>, y: seq<A>)
    ensures FlatMap(f, x + y) == FlatMap(f, x) + FlatMap(f, y)
    decreases |y|
  {
    if y == [] {
      assert x + y == x;
    } else {
      var init := y[..|y| - 1];
      FlatMapAppend(f, x, init);
      assert (x + y)[..|x + y| - 1] == x + init;
      assert (x + y)[|x + y| - 1] == y[|y| - 1];
    }
  }

  lemma FlatMapSingle<A, B>(f: A -> seq<B>, a: A)
    ensures FlatMap(f, [a]) == f(a)
  {
    assert [a][..0] == [];
  }

  function CountCorrect(answers: seq<UserAnswer>): (n: nat)
    ensures n <= |answers|
  {
    if answers == [] then 0
    else CountCorrect(answers[..|answers| - 1]) + (if answers[|answers| - 1].isCorrect then 1 else 0)
  }

  /** The outcome of grading a batch: it fails as a whole as soon as two
      accepted answers name the same question; otherwise every accepted
      answer is stored and the correct ones are counted. */
  function Grade(t: Test, resultId: nat, batch: seq<SubmittedAnswer>): GradeOutcome {
    var acc := Accepted(t, resultId, batch);
    if AnswersUnique(acc) then Ok(Graded(CountCorrect(acc), acc)) else Err(DuplicateAnswer)
  }

  /** `int(correct / total * 100)` if there are questions, else 0; the model
      uses the exact floor of the ratio. */
  function ScorePercent(correct: int, total: int): int {
    if total > 0 then (correct * 100) / total else 0
  }

  /** The loop of the serializer: walk the batch, skip pairs that do not
      resolve, fail on a repeated question, count the correct answers. */
  method GradeBatch(t: Test, resultId: nat, batch: seq<SubmittedAnswer>) returns (r: GradeOutcome)
    ensures r == Grade(t, resultId, batch)
  {
    var created: seq<UserAnswer> := [];
    var correct: nat := 0;
    var i := 0;
    assert batch[..0] == [];
    while i < |batch|
      invariant 0 <= i <= |batch|
      invariant created == Accepted(t, resultId, batch[..i])
      invariant AnswersUnique(created)
      invariant correct == CountCorrect(created)
    {
      var one := AcceptOne(t, resultId, batch[i]);
      if one != [] && !CanStore(created, one[0]) {
        ClashIsFinal(t, resultId, batch, i, created);
        return Err(DuplicateAnswer);
      }
      AcceptedStep(t, resultId, batch, i);
      AppendOne(created, one);
      created, correct := created + one, correct + CountCorrect(one);
      i := i + 1;
    }
    assert batch[..|batch|] == batch;
    r := Ok(Graded(correct, created));
  }

  /** One turn of the loop appends what the entry resolves to. */
  lemma AcceptedStep(t: Test, rid: nat, batch: seq<SubmittedAnswer>, i: nat)
    requires i < |batch|
    ensures Accepted(t, rid, batch[..i + 1]) == Accepted(t, rid, batch[..i]) + AcceptOne(t, rid, batch[i])
  {
    assert batch[..i + 1] == batch[..i] + [batch[i]];
    FlatMapAppend(AcceptFn(t, rid), batch[..i], [batch[i]]);
    FlatMapSingle(AcceptFn(t, rid), batch[i]);
  }

  /** Appending at most one answer adds its flag to the count and, when it
      does not clash, keeps the answers unique. */
  lemma AppendOne(created: seq<UserAnswer>, one: seq<UserAnswer>)
    requires |one| <= 1 && AnswersUnique(created)
    requires one == [] || CanStore(created, one[0])
    ensures CountCorrect(created + one) == CountCorrect(created) + CountCorrect(one)
    ensures AnswersUnique(created + one)
  {
    if one != [] {
      assert (created + one)[..|created|] == created;
      StoreKeepsUnique(created, one[0]);
      assert one == [one[0]];
    } else {
      assert created + one == created;
    }
  }

  /** A clash inside the loop decides the whole batch. */
  lemma ClashIsFinal(t: Test, rid: nat, batch: seq<SubmittedAnswer>, i: nat, created: seq<UserAnswer>)
    requires i < |batch| && created == Accepted(t, rid, batch[..i])
    requires AcceptOne(t, rid, batch[i]) != [] && !CanStore(created, AcceptOne(t, rid, batch[i])[0])
    ensures Grade(t, rid, batch) == Err(DuplicateAnswer)
  {
    AcceptedStep(t, rid, batch, i);
    var ua := AcceptOne(t, rid, batch[i])[0];
    assert AcceptOne(t, rid, batch[i]) == [ua];
    var i0 :| 0 <= i0 < |created| && created[i0].resultId == ua.resultId && created[i0].questionId == ua.questionId;
    assert (created + [ua])[i0] == created[i0] && (created + [ua])[|created|] == ua;
    DuplicatePersists(t, rid, batch, i + 1);
  }

  lemma {:induction false} AcceptedPrefix(t: Test, rid: nat, batch: seq<SubmittedAnswer>, k: nat)
    requires k <= |batch|
    ensures Accepted(t, rid, batch[..k]) <= Accepted(t, rid, batch)
    decreases |batch| - k
  {
    if k < |batch| {
      AcceptedPrefix(t, rid, batch, k + 1);
      AcceptedStep(t, rid, batch, k);
    } else {
      assert batch[..k] == batch;
    }
  }

  /** Once two accepted answers clash, no later entry can undo the clash. */
  lemma DuplicatePersists(t: Test, rid: nat, batch: seq<SubmittedAnswer>, k: nat)
    requires k <= |batch|
    requires !AnswersUnique(Accepted(t, rid, batch[..k]))
    ensures !AnswersUnique(Accepted(t, rid, batch))
    ensures Grade(t, rid, batch) == Err(DuplicateAnswer)
  {
    AcceptedPrefix(t, rid, batch, k);
    var pre := Accepted(t, rid, batch[..k]);
    var all := Accepted(t, rid, batch);
    var i, j :| 0 <= i < j < |pre| && pre[i].resultId == pre[j].resultId
      && pre[i].questionId == pre[j].questionId;
    assert all[i] == pre[i] && all[j] == pre[j];
  }

  // ---------------------------------------------------------------------
  // Properties of grading

  /** Every accepted answer belongs to a question of the test and to one
      of that question's options, and carries that option's flag. */
  lemma {:induction false} AcceptedAreResolved(t: Test, rid: nat, batch: seq<SubmittedAnswer>)
    ensures forall a :: a in Accepted(t, rid, batch) ==>
      a.resultId == rid &&
      exists q, o :: q in t.questions && o in q.options && a.questionId == q.id
        && a.optionId == o.id && a.isCorrect == o.isCorrect
  {
    if batch != [] {
      AcceptedAreResolved(t, rid, batch[..|batch| - 1]);
    }
  }

  /** Skipping: an entry naming a question outside the test, or an option
      outside its question, changes nothing in the outcome. */
  lemma UnresolvedEntryIsSkipped(t: Test, rid: nat, pre: seq<SubmittedAnswer>,
                                 bad: SubmittedAnswer, post: seq<SubmittedAnswer>)
    requires AcceptOne(t, rid, bad) == []
    ensures Grade(t, rid, pre + [bad] + post) == Grade(t, rid, pre + post)
  {
    var f := AcceptFn(t, rid);
    FlatMapAppend(f, pre + [bad], post);
    FlatMapAppend(f, pre, [bad]);
    FlatMapAppend(f, pre, post);
    FlatMapSingle(f, bad);
    assert f(bad) == [];
    assert FlatMap(f, pre + [bad]) == FlatMap(f, pre);
  }

  /** A question asked twice in one batch makes the whole batch fail rather
      than being skipped. */
  lemma RepeatedQuestionFails(t: Test, rid: nat, a: SubmittedAnswer, b: SubmittedAnswer)
    requires AcceptOne(t, rid, a) != [] && AcceptOne(t, rid, b) != []
    requires a.questionId == b.questionId
    ensures Grade(t, rid, [a, b]) == Err(DuplicateAnswer)
  {
    var f := AcceptFn(t, rid);
    assert [a, b] == [a] + [b];
    FlatMapAppend(f, [a], [b]);
    FlatMapSingle(f, a);
    FlatMapSingle(f, b);
    var acc := Accepted(t, rid, [a, b]);
    assert acc == AcceptOne(t, rid, a) + AcceptOne(t, rid, b);
    assert acc[0].questionId == acc[1].questionId;
  }

  function Ids(qs: seq<Question>): set<nat> {
    set q | q in qs :: q.id
  }

  lemma {:induction false} IdsBound(qs: seq<Question>)
    ensures |Ids(qs)| <= |qs|
  {
    if qs != [] {
      IdsBound(qs[1..]);
      assert Ids(qs) == Ids(qs[1..]) + {qs[0].id};
    }
  }

  function QuestionIdSet(answers: seq<UserAnswer>): set<nat> {
    set a | a in answers :: a.questionId
  }

  lemma {:induction false} DistinctQuestionIds(answers: seq<UserAnswer>, rid: nat)
    requires AnswersUnique(answers)
    requires forall a :: a in answers ==> a.resultId == rid
    ensures |QuestionIdSet(answers)| == |answers|
  {
    if answers != [] {
      var init := answers[..|answers| - 1];
      var last := answers[|answers| - 1];
      assert AnswersUnique(init) && forall a :: a in init ==> a.resultId == rid by {
        assert forall a :: a in init ==> a in answers;
      }
      DistinctQuestionIds(init, rid);
      assert last.questionId !in QuestionIdSet(init) by {
        assert forall k :: 0 <= k < |init| ==> init[k] == answers[k];
      }
      assert QuestionIdSet(answers) == QuestionIdSet(init) + {last.questionId} by {
        assert answers == init + [last];
      }
    }
  }

  /** A successful batch has at most one answer per question of the test,
      so the correct count never exceeds the test's question count. */
  lemma CorrectAtMostTotal(t: Test, rid: nat, batch: seq<SubmittedAnswer>)
    requires Grade(t, rid, batch).Ok?
    ensures Grade(t, rid, batch).graded.correct <= |Grade(t, rid, batch).graded.answers| <= |t.questions|
  {
    var acc := Accepted(t, rid, batch);
    AcceptedAreResolved(t, rid, batch);
    DistinctQuestionIds(acc, rid);
    assert QuestionIdSet(acc) <= Ids(t.questions) by {
      forall x | x in QuestionIdSet(acc) ensures x in Ids(t.questions) {
        var a :| a in acc && a.questionId == x;
        var q, o :| q in t.questions && o in q.options && a.questionId == q.id
          && a.optionId == o.id && a.isCorrect == o.isCorrect;
      }
    }
    IdsBound(t.questions);
    assert |QuestionIdSet(acc)| <= |Ids(t.questions)| by {
      SubsetCard(QuestionIdSet(acc), Ids(t.questions));
    }
  }

  lemma SubsetCard(a: set<nat>, b: set<nat>)
    requires a <= b
    ensures |a| <= |b|
  {
    assert b == a + (b - a);
  }

  /** The percentage is between 0 and 100, is 100 exactly when every
      question is answered correctly, and is the largest whole percentage
      not above the true ratio. */
  lemma ScoreBounds(correct: int, total: int)
    requires 0 <= correct <= total
    ensures 0 <= ScorePercent(correct, total) <= 100
    ensures total > 0 ==> (ScorePercent(correct, total) == 100 <==> correct == total)
    ensures total > 0 ==> ScorePercent(correct, total) * total <= correct * 100
                          < (ScorePercent(correct, total) + 1) * total
  {
    if total > 0 {
      var s := ScorePercent(correct, total);
      assert s * total <= correct * 100 < (s + 1) * total;
      if s == 100 {
        assert correct * 100 >= 100 * total;
      }
      if correct == total {
        assert correct * 100 / total == 100;
      }
    }
  }

  /** The denominator is the test's own question count: three correct out
      of a ten-question test is 30 however few questions were answered. */
  lemma ScoreUsesFullCount()
    ensures ScorePercent(3, 10) == 30
    ensures ScorePercent(1, 3) == 33
    ensures ScorePercent(5, 5) == 100
  {
  }

  // ---------------------------------------------------------------------
  // Position assignment for a new user

  datatype Position = Position(id: nat, name: string, isOpen: bool)

  function FindPosition(ps: seq<Position>, id: int): (r: Option<Position>)
    ensures r.Some? ==> r.value in ps && r.value.id == id
    ensures r.None? ==> forall p :: p in ps ==> p.id != id
  {
    if ps == [] then None
    else if ps[0].id == id then Some(ps[0])
    else FindPosition(ps[1..], id)
  }

  /** The position a user is created with: the requested one when an id was
      given (a zero id counts as none), it exists and it is open; otherwise no
      position at all. Position ids are unique. */
  function AssignedPosition(ps: seq<Position>, positionId: Option<int>): (r: Option<Position>)
    requires forall i, j :: 0 <= i < j < |ps| ==> ps[i].id != ps[j].id
    ensures r.Some? ==> r.value in ps && r.value.isOpen && positionId == Some(r.value.id as int)
    ensures r.None? ==> positionId == None || positionId == Some(0)
                        || forall p :: p in ps && p.id == positionId.value ==> !p.isOpen
  {
    if positionId.None? || positionId.value == 0 then None
    else
      match FindPosition(ps, positionId.value)
      case Some(p) => if p.isOpen then Some(p) else None
      case None => None
  }
}
