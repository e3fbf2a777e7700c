/** The attempt bookkeeping of one user at one test, as the test endpoints of
    backend/api/views.py keep it: the `questions`, `start_test`,
    `notify_page_leave` and `block_user` actions, the filter that hides
    exhausted tests from the list, and the submission of an answer batch
    (backend/api/serializers.py) that adds a result. */
module AttemptLedger {
  import opened Common
  import opened TestModels
  import opened QuestionSelection
  import opened Serializers

  // ---------------------------------------------------------------------
  // Eligibility

  /** Why an attempt is refused: the user is blocked (403), every attempt
      of the requested kind is used (400), or a passed test with a CV on
      file may not be retaken (400). */
  datatype Refusal =
    | Blocked(reason: Option<string>)
    | AttemptsUsed(used: nat, limit: int)
    | CvLocked

  /** The attempt limit for the requested kind of attempt. */
  function AttemptLimit(t: Test, trial: bool): int {
    if trial then t.maxTrialAttempts else t.maxAttempts
  }

  /** Completed results of the given kind (trial or real). */
  function CompletedCount(rs: seq<TestResult>, trial: bool): (n: nat)
    ensures n <= |rs|
  {
    if rs == [] then 0
    else CompletedCount(rs[..|rs| - 1], trial)
         + (if rs[|rs| - 1].isCompleted && rs[|rs| - 1].isTrial == trial then 1 else 0)
  }

  /** Positions of `rs` that hold a completed result of the given kind. */
  function CompletedAt(rs: seq<TestResult>, trial: bool): set<int> {
    set i | 0 <= i < |rs| && rs[i].isCompleted && rs[i].isTrial == trial
  }

  /** The count is the number of positions holding a completed result of
      the requested kind. */
  lemma {:induction false} CompletedCountCounts(rs: seq<TestResult>, trial: bool)
    ensures CompletedCount(rs, trial) == |CompletedAt(rs, trial)|
  {
    if rs != [] {
      var last := |rs| - 1;
      CompletedCountCounts(rs[..last], trial);
      CompletedAtSnoc(rs, trial);
    }
  }

  lemma CompletedAtSnoc(rs: seq<TestResult>, trial: bool)
    requires rs != []
    ensures var last := |rs| - 1;
      var s := CompletedAt(rs[..last], trial);
      last !in s
      && CompletedAt(rs, trial) == if rs[last].isCompleted && rs[last].isTrial == trial then s + {last} else s
  {
    var last := |rs| - 1;
    var s := CompletedAt(rs[..last], trial);
    forall i | i in CompletedAt(rs, trial) && i != last ensures i in s {
      assert rs[..last][i] == rs[i];
    }
    forall i | i in s ensures i in CompletedAt(rs, trial) {
      assert rs[..last][i] == rs[i];
    }
  }

  /** The two checks shared by `questions` and `start_test`, in their order:
      a block wins over everything, then the attempt count of the
      requested kind. */
  function Gate(isBlocked: bool, reason: Option<string>, rs: seq<TestResult>, t: Test, trial: bool)
    : (r: Option<Refusal>)
    ensures isBlocked <==> r == Some(Blocked(reason))
    ensures !isBlocked ==>
      (r.Some? <==> CompletedCount(rs, trial) >= AttemptLimit(t, trial))
    ensures r.Some? && !isBlocked ==>
      r.value == AttemptsUsed(CompletedCount(rs, trial), AttemptLimit(t, trial))
  {
    if isBlocked then Some(Blocked(reason))
    else if CompletedCount(rs, trial) >= AttemptLimit(t, trial) then
      Some(AttemptsUsed(CompletedCount(rs, trial), AttemptLimit(t, trial)))
    else None
  }

  /** Some completed result of this test reaches the passing score. */
  predicate HasPassed(rs: seq<TestResult>, t: Test) {
    exists i :: 0 <= i < |rs| && rs[i].isCompleted && rs[i].score >= t.passingScore
  }

  /** The incomplete result with the latest start (`order_by('-started_at').first()`),
      of either kind; among equal start times the one created last. */
  function NewestIncomplete(rs: seq<TestResult>): (k: Option<nat>)
    ensures k.None? <==> forall j :: 0 <= j < |rs| ==> rs[j].isCompleted
    ensures k.Some? ==> k.value < |rs| && !rs[k.value].isCompleted
    ensures k.Some? ==> forall j :: 0 <= j < |rs| && !rs[j].isCompleted ==>
                          rs[j].startedAt <= rs[k.value].startedAt
  {
    if rs == [] then None
    else
      var k := NewestIncomplete(rs[..|rs| - 1]);
      var last := |rs| - 1;
      if !rs[last].isCompleted && (k.None? || rs[k.value].startedAt <= rs[last].startedAt) then
        Some(last)
      else k
  }

  /** Python's int() of a quotient: division truncated toward zero. */
  function TruncDiv(a: int, b: int): (q: int)
    requires b > 0
    ensures a >= 0 ==> q == a / b
    ensures a < 0 ==> q == -((-a) / b)
  {
    if a >= 0 then a / b else -((-a) / b)
  }

  // ---------------------------------------------------------------------
  // start_test as a function of the ledger

  datatype StartOutcome =
    | IdRequired    // no telegram id in the request: 400
    | UserNotFound  // no user has the telegram id: 404
    | Refused(refusal: Refusal)
      /** The open attempt is continued; its id doubles as session token. */
    | Resumed(resultId: nat, elapsedMinutes: int, remainingMinutes: int, attemptNumber: int, trial: bool)
    | Started(resultId: nat, attemptNumber: int, trial: bool)

  /** The result a new attempt is created with. */
  function NewAttempt(id: nat, t: Test, count: nat, trial: bool, now: int): (r: TestResult)
    ensures r.id == id && r.testId == t.id && r.attemptNumber == count + 1
    ensures r.score == 0 && r.totalQuestions == 0 && r.correctAnswers == 0 && r.timeTaken == 0
    ensures !r.isCompleted && r.completedAt == None && r.isTrial == trial && r.startedAt == now
  {
    TestResult(id, t.id, 0, 0, 0, now, None, 0, count + 1, false, trial)
  }

  /** The answer of `start_test` and the user's results afterwards, for a
      user whose results at this test are `rs`; `newId` is the id the
      database gives a new result. Checks run in this order: block,
      attempt count, CV lock, then resume or expire the newest open
      attempt, then open a new one. */
  function Start(rs: seq<TestResult>, isBlocked: bool, reason: Option<string>, hasCv: bool,
                 newId: nat, t: Test, trial: bool, now: int): (r: (StartOutcome, seq<TestResult>))
    ensures Gate(isBlocked, reason, rs, t, trial).Some? ==>
      r == (Refused(Gate(isBlocked, reason, rs, t, trial).value), rs)
    ensures Gate(isBlocked, reason, rs, t, trial).None? && HasPassed(rs, t) && hasCv ==>
      r == (Refused(CvLocked), rs)
    ensures r.0.Refused? || r.0.Resumed? ==> r.1 == rs
    ensures r.0.Resumed? ==> exists k :: 0 <= k < |rs| && !rs[k].isCompleted && rs[k].id == r.0.resultId
    ensures r.0.Started? ==> |r.1| == |rs| + 1 && r.1[|rs|] == NewAttempt(newId, t, |rs|, trial, now)
    ensures r.0.Started? ==> forall i :: 0 <= i < |rs| ==>
      r.1[i] == rs[i] || r.1[i] == rs[i].(isCompleted := true, completedAt := Some(now))
  {
    var gate := Gate(isBlocked, reason, rs, t, trial);
    if gate.Some? then (Refused(gate.value), rs)
    else if HasPassed(rs, t) && hasCv then (Refused(CvLocked), rs)
    else
      var open := NewestIncomplete(rs);
      if open.Some? && now - rs[open.value].startedAt < t.timeLimit * 60 then
        var secs := now - rs[open.value].startedAt;
        (Resumed(rs[open.value].id, TruncDiv(secs, 60), TruncDiv(t.timeLimit * 60 - secs, 60),
                 rs[open.value].attemptNumber, trial), rs)
      else
        var closed := if open.Some? then
                        rs[open.value := rs[open.value].(isCompleted := true, completedAt := Some(now))]
                      else rs;
        (Started(newId, |closed| + 1, trial), closed + [NewAttempt(newId, t, |closed|, trial, now)])
  }

  // ---------------------------------------------------------------------
  // Properties of start_test

  /** The open attempt with the latest start is resumed while its time
      limit has not run out, whichever kind of attempt was requested and
      whichever kind it is; the remaining time is the whole minutes left. */
  lemma {:induction false} OpenAttemptIsResumed(rs: seq<TestResult>, isBlocked: bool, reason: Option<string>,
                                                hasCv: bool, newId: nat, t: Test, trial: bool, now: int, k: nat)
    requires Gate(isBlocked, reason, rs, t, trial).None? && !(HasPassed(rs, t) && hasCv)
    requires k < |rs| && !rs[k].isCompleted
    requires forall j :: 0 <= j < |rs| && j != k && !rs[j].isCompleted ==> rs[j].startedAt < rs[k].startedAt
    requires 0 <= now - rs[k].startedAt < t.timeLimit * 60
    ensures Start(rs, isBlocked, reason, hasCv, newId, t, trial, now).0 ==
      Resumed(rs[k].id, (now - rs[k].startedAt) / 60, (t.timeLimit * 60 - (now - rs[k].startedAt)) / 60,
              rs[k].attemptNumber, trial)
  {
    var open := NewestIncomplete(rs);
    assert open.Some?;
    assert open.value == k by {
      assert rs[k].startedAt <= rs[open.value].startedAt;
    }
  }

  /** An open attempt whose time has run out is closed (score untouched)
      and a new attempt opens with the next attempt number. */
  lemma {:induction false} ExpiredAttemptIsClosed(rs: seq<TestResult>, isBlocked: bool, reason: Option<string>,
                                                  hasCv: bool, newId: nat, t: Test, trial: bool, now: int)
    requires Gate(isBlocked, reason, rs, t, trial).None? && !(HasPassed(rs, t) && hasCv)
    requires NewestIncomplete(rs).Some?
    requires now - rs[NewestIncomplete(rs).value].startedAt >= t.timeLimit * 60
    ensures var k := NewestIncomplete(rs).value;
            var r := Start(rs, isBlocked, reason, hasCv, newId, t, trial, now);
            r.0 == Started(newId, |rs| + 1, trial) &&
            r.1[k].isCompleted && r.1[k].completedAt == Some(now) && r.1[k].score == rs[k].score &&
            r.1[..|rs|] == rs[k := r.1[k]] && r.1[|rs|] == NewAttempt(newId, t, |rs|, trial, now)
  {
    var k := NewestIncomplete(rs).value;
    var closed := rs[k := rs[k].(isCompleted := true, completedAt := Some(now))];
    var r := Start(rs, isBlocked, reason, hasCv, newId, t, trial, now);
    assert r.1 == closed + [NewAttempt(newId, t, |rs|, trial, now)];
    assert r.1[..|rs|] == closed;
  }

  /** With no open attempt the new attempt is appended and nothing else
      changes; its number counts every earlier result, of either kind and
      in any state. */
  lemma NoOpenAttemptAppends(rs: seq<TestResult>, isBlocked: bool, reason: Option<string>,
                             hasCv: bool, newId: nat, t: Test, trial: bool, now: int)
    requires Gate(isBlocked, reason, rs, t, trial).None? && !(HasPassed(rs, t) && hasCv)
    requires forall j :: 0 <= j < |rs| ==> rs[j].isCompleted
    ensures Start(rs, isBlocked, reason, hasCv, newId, t, trial, now) ==
      (Started(newId, |rs| + 1, trial), rs + [NewAttempt(newId, t, |rs|, trial, now)])
  {
    assert NewestIncomplete(rs).None?;
  }

  /** Starting never removes a result and never reduces the number of
      completed results of either kind. */
  lemma {:induction false} StartKeepsHistory(rs: seq<TestResult>, isBlocked: bool, reason: Option<string>,
                                             hasCv: bool, newId: nat, t: Test, trial: bool, now: int, kind: bool)
    ensures var after := Start(rs, isBlocked, reason, hasCv, newId, t, trial, now).1;
            |after| >= |rs| && CompletedCount(after, kind) >= CompletedCount(rs, kind)
  {
    var r := Start(rs, isBlocked, reason, hasCv, newId, t, trial, now);
    if r.0.Started? {
      var after := r.1;
      var s := CompletedAt(rs, kind);
      var s' := CompletedAt(after, kind);
      assert s <= s' by {
        forall i | i in s ensures i in s' {
          assert after[i] == rs[i] || after[i] == rs[i].(isCompleted := true, completedAt := Some(now));
        }
      }
      SubsetCardinality(s, s');
      CompletedCountCounts(rs, kind);
      CompletedCountCounts(after, kind);
    }
  }

  lemma SubsetCardinality(a: set<int>, b: set<int>)
    requires a <= b
    ensures |a| <= |b|
  {
    assert b == a + (b - a);
  }

  // ---------------------------------------------------------------------
  // Page-leave blocking

  const DefaultBlockReason: string := "Test tark etildi (cheating)"

  /** The reason recorded when a user leaves the test page too often. */
  function LeaveReason(attempts: int): (s: string)
    ensures Contains(s, IntToString(attempts))
  {
    var s := DefaultBlockReason + " - " + IntToString(attempts) + " marta urinish";
    ContainsAt(s, IntToString(attempts), |DefaultBlockReason| + 3);
    s
  }

  /** The count can be read back from the reason: different counts give
      different reasons. */
  lemma LeaveReasonInjective(a: int, b: int)
    requires LeaveReason(a) == LeaveReason(b)
    ensures a == b
  {
    var p := |DefaultBlockReason| + 3;
    var sa := IntToString(a);
    var sb := IntToString(b);
    var suffix := " marta urinish";
    assert LeaveReason(a)[p..] == sa + suffix;
    assert LeaveReason(b)[p..] == sb + suffix;
    assert sa + suffix == sb + suffix;
    assert sa == (sa + suffix)[..|sa + suffix| - |suffix|];
    assert sb == (sb + suffix)[..|sb + suffix| - |suffix|];
    IntToStringInjective(a, b);
  }

  // ---------------------------------------------------------------------
  // Hiding exhausted tests from the list

  /** A test together with the requesting user's results at it. */
  datatype Listed = Listed(test: Test, results: seq<TestResult>)

  /** A test stays in the list while the user's completed real attempts
      are below its limit; trial attempts never hide a test. */
  predicate Exhausted(e: Listed) {
    CompletedCount(e.results, false) >= e.test.maxAttempts
  }

  /** The list filter: applied only when a known user asks for the list. */
  function VisibleTests(es: seq<Listed>, knownUser: bool): (r: seq<Listed>)
    ensures !knownUser ==> r == es
    ensures |r| <= |es|
  {
    if !knownUser || es == [] then es
    else
      var rest := VisibleTests(es[1..], knownUser);
      if Exhausted(es[0]) then rest else [es[0]] + rest
  }

  /** A known user sees exactly the listed tests not yet exhausted. */
  lemma {:induction false} VisibleTestsMembers(es: seq<Listed>)
    ensures forall e :: e in VisibleTests(es, true) <==> e in es && !Exhausted(e)
  {
    if es != [] {
      VisibleTestsMembers(es[1..]);
      assert forall e :: e in es <==> e == es[0] || e in es[1..];
    }
  }

  /** The filter works entry by entry, so it keeps the list order:
      filtering a concatenation filters each part in place. */
  lemma {:induction false} VisibleTestsKeepOrder(a: seq<Listed>, b: seq<Listed>)
    ensures VisibleTests(a + b, true) == VisibleTests(a, true) + VisibleTests(b, true)
  {
    if a != [] {
      VisibleTestsKeepOrder(a[1..], b);
      var head := if Exhausted(a[0]) then [] else [a[0]];
      assert (a + b)[1..] == a[1..] + b;
      assert VisibleTests(a + b, true) == head + VisibleTests(a[1..] + b, true);
      assert VisibleTests(a, true) == head + VisibleTests(a[1..], true);
    } else {
      assert a + b == b;
    }
  }

  // ---------------------------------------------------------------------
  // Page size of the admin question list

  /** `page_size` query parameter (default "20"): not an integer or below 1
      gives 20, above 100 gives 100. */
  function PageSize(param: Option<string>): (n: int)
    ensures 1 <= n <= 100
    ensures var p := ParseInt(if param.Some? then param.value else "20");
            (p.Some? && 1 <= p.value <= 100 ==> n == p.value) &&
            (p.None? || p.value < 1 ==> n == 20) &&
            (p.Some? && p.value > 100 ==> n == 100)
  {
    var p := ParseInt(if param.Some? then param.value else "20");
    if p.None? then 20
    else if p.value < 1 then 20
    else if p.value > 100 then 100
    else p.value
  }

  /** A page size written as a number is used as it is when it lies in
      1..100 and clamped into that range otherwise. */
  lemma PageSizeOfNumber(n: int)
    ensures PageSize(Some(IntToString(n))) == if n < 1 then 20 else if n > 100 then 100 else n
  {
    IntToStringRoundTrip(n);
  }

  // ---------------------------------------------------------------------
  // The ledger of one user at one test

  /** What `questions` answers: a refusal, a server error when the sample
      size is negative, or the questions to show. */
  /** What `notify_page_leave` and `block_user` answer: the request has
      no telegram id (400), no user has the id (404), or the action was
      carried out, saying whether the user is now blocked for it. */
  datatype ActionOutcome =
    | MissingId
    | NoSuchUser
    | Done(blocked: bool)

  /** The `reason` field of a block request: left out, sent as null, or
      sent as text. */
  datatype ReasonField =
    | Absent
    | Null
    | Text(text: string)

  datatype QuestionsOutcome =
    | QuestionsRefused(refusal: Refusal)
    | SampleError
    | Shown(questions: seq<Question>)

  class Ledger {
    var results: seq<TestResult>     // this user's results at this test, oldest first
    var answers: seq<UserAnswer>     // the answers stored against those results
    var isBlocked: bool
    var blockedReason: Option<string>
    var blockedAt: Option<int>
    var hasCv: bool                  // the user has uploaded any CV
    var nextId: nat                  // the id the database gives the next result

    /** Result ids are below `nextId` and pairwise different. */
    ghost predicate Valid()
      reads this
    {
      (forall i :: 0 <= i < |results| ==> results[i].id < nextId) &&
      (forall i, j :: 0 <= i < j < |results| ==> results[i].id != results[j].id)
    }

    constructor (hasCv: bool)
      ensures Valid()
      ensures results == [] && answers == [] && !isBlocked && blockedReason == None
      ensures blockedAt == None && this.hasCv == hasCv
    {
      results := [];
      answers := [];
      isBlocked := false;
      blockedReason := None;
      blockedAt := None;
      this.hasCv := hasCv;
      nextId := 0;
    }

    /** The `questions` action. The checks apply only when the request names
        a known user; then the selection of `QuestionSelection.Select`. */
    method Questions(t: Test, trial: bool, knownUser: bool, sampleRnd: seq<nat>, shuffleRnd: seq<nat>)
      returns (r: QuestionsOutcome)
      ensures knownUser && Gate(isBlocked, blockedReason, results, t, trial).Some? ==>
        r == QuestionsRefused(Gate(isBlocked, blockedReason, results, t, trial).value)
      ensures (!knownUser || Gate(isBlocked, blockedReason, results, t, trial).None?) ==>
        (r.SampleError? <==> SampleFails(t, trial))
      ensures r.Shown? ==> |r.questions| == ShownCount(t, trial, |t.questions|)
      ensures r.Shown? ==> multiset(r.questions) <= multiset(t.questions)
    {
      if knownUser {
        var gate := Gate(isBlocked, blockedReason, results, t, trial);
        if gate.Some? {
          return QuestionsRefused(gate.value);
        }
      }
      var sel := Select(t.questions, t, trial, sampleRnd, shuffleRnd);
      if sel.None? {
        return SampleError;
      }
      return Shown(sel.value);
    }

    /** The `start_test` action. `idGiven` says whether the request
        carries a telegram id (a missing or empty one does not count);
        `knownUser` whether the id is this user's. Without an id, or for
        an unknown one, the request is refused and nothing changes;
        otherwise the outcome and the new results are those of `Start`. */
    method StartTest(idGiven: bool, knownUser: bool, t: Test, trial: bool, now: int) returns (o: StartOutcome)
      requires Valid()
      modifies this
      ensures Valid()
      ensures !idGiven ==> o == IdRequired
      ensures idGiven && !knownUser ==> o == UserNotFound
      ensures !(idGiven && knownUser) ==> results == old(results) && nextId == old(nextId)
      ensures idGiven && knownUser ==>
        (o, results) == Start(old(results), old(isBlocked), old(blockedReason), old(hasCv),
                              old(nextId), t, trial, now)
      ensures nextId == if o.Started? then old(nextId) + 1 else old(nextId)
      ensures answers == old(answers) && isBlocked == old(isBlocked) && hasCv == old(hasCv)
      ensures blockedReason == old(blockedReason) && blockedAt == old(blockedAt)
    {
      if !idGiven {
        return IdRequired;
      }
      if !knownUser {
        return UserNotFound;
      }
      var r := Start(results, isBlocked, blockedReason, hasCv, nextId, t, trial, now);
      o := r.0;
      if o.Started? {
        StartKeepsIds(results, isBlocked, blockedReason, hasCv, nextId, t, trial, now);
        results := r.1;
        nextId := nextId + 1;
      }
    }

    /** The `notify_page_leave` action. Without a telegram id (400), or
        for an id no user has (404), nothing changes. Otherwise two or more
        departures block the user with a reason naming the count, and
        fewer change nothing. */
    method NotifyPageLeave(idGiven: bool, knownUser: bool, attempts: int, now: int) returns (o: ActionOutcome)
      modifies this
      ensures !idGiven ==> o == MissingId
      ensures idGiven && !knownUser ==> o == NoSuchUser
      ensures idGiven && knownUser ==> o == Done(attempts >= 2)
      ensures o == Done(true) ==>
        isBlocked && blockedReason == Some(LeaveReason(attempts)) && blockedAt == Some(now)
      ensures o != Done(true) ==> isBlocked == old(isBlocked) && blockedReason == old(blockedReason)
                                  && blockedAt == old(blockedAt)
      ensures results == old(results) && answers == old(answers) && hasCv == old(hasCv)
      ensures nextId == old(nextId)
    {
      if !idGiven {
        return MissingId;
      }
      if !knownUser {
        return NoSuchUser;
      }
      o := Done(attempts >= 2);
      if attempts >= 2 {
        isBlocked := true;
        blockedReason := Some(LeaveReason(attempts));
        blockedAt := Some(now);
      }
    }

    /** The `block_user` action. Without a telegram id (400), or for an id
        no user has (404), nothing changes. Otherwise the user is blocked
        now; an absent reason becomes the default one, and a reason sent as
        null is stored as none. */
    method BlockUser(idGiven: bool, knownUser: bool, reason: ReasonField, now: int) returns (o: ActionOutcome)
      modifies this
      ensures !idGiven ==> o == MissingId
      ensures idGiven && !knownUser ==> o == NoSuchUser
      ensures idGiven && knownUser ==> o == Done(true)
      ensures o == Done(true) ==> isBlocked && blockedAt == Some(now)
      ensures o == Done(true) ==>
        blockedReason == (match reason
                            case Absent => Some(DefaultBlockReason)
                            case Null => None
                            case Text(text) => Some(text))
      ensures o != Done(true) ==> isBlocked == old(isBlocked) && blockedReason == old(blockedReason)
                                  && blockedAt == old(blockedAt)
      ensures results == old(results) && answers == old(answers) && hasCv == old(hasCv)
      ensures nextId == old(nextId)
    {
      if !idGiven {
        return MissingId;
      }
      if !knownUser {
        return NoSuchUser;
      }
      isBlocked := true;
      blockedReason := match reason
        case Absent => Some(DefaultBlockReason)
        case Null => None
        case Text(text) => Some(text);
      blockedAt := Some(now);
      o := Done(true);
    }

    /** Submitting an answer batch (TestResultCreateSerializer.create): an
        inactive test is refused; otherwise a NEW result is added with the
        test's full question count as denominator, and it is left
        incomplete; a repeated question fails the whole batch. */
    method Submit(t: Test, batch: seq<SubmittedAnswer>, timeTaken: int, now: int)
      returns (r: GradeOutcome)
      requires Valid()
      modifies this
      ensures Valid()
      ensures !t.isActive ==> r == Err(TestNotFound)
      ensures t.isActive ==> r == Grade(t, old(nextId), batch)
      ensures r.Ok? ==>
        results == old(results) + [Submitted(old(nextId), t, r.graded.correct, timeTaken, now)] &&
        answers == old(answers) + r.graded.answers && nextId == old(nextId) + 1
      ensures r.Err? ==> results == old(results) && answers == old(answers) && nextId == old(nextId)
      ensures isBlocked == old(isBlocked) && blockedReason == old(blockedReason)
      ensures blockedAt == old(blockedAt) && hasCv == old(hasCv)
    {
      if !t.isActive {
        return Err(TestNotFound);
      }
      r := GradeBatch(t, nextId, batch);
      if r.Ok? {
        results := results + [Submitted(nextId, t, r.graded.correct, timeTaken, now)];
        answers := answers + r.graded.answers;
        nextId := nextId + 1;
      }
    }
  }

  /** The result a successful submission stores. */
  function Submitted(id: nat, t: Test, correct: nat, timeTaken: int, now: int): (r: TestResult)
    ensures r.id == id && r.testId == t.id && r.totalQuestions == |t.questions|
    ensures r.correctAnswers == correct && r.score == ScorePercent(correct, |t.questions|)
    ensures !r.isCompleted && r.completedAt == None && r.attemptNumber == 1 && !r.isTrial
  {
    NewResult(id, t.id, ScorePercent(correct, |t.questions|), |t.questions|, correct, now, timeTaken)
  }

  lemma StartKeepsIds(rs: seq<TestResult>, isBlocked: bool, reason: Option<string>,
                      hasCv: bool, newId: nat, t: Test, trial: bool, now: int)
    requires forall i :: 0 <= i < |rs| ==> rs[i].id < newId
    ensures var after := Start(rs, isBlocked, reason, hasCv, newId, t, trial, now).1;
            forall i :: 0 <= i < |after| ==>
              (after[i].id < newId + 1 && (i < |rs| ==> after[i].id == rs[i].id))
  {
  }

  // ---------------------------------------------------------------------
  // Submission and the attempt limit

  /** A submitted result is never completed, so submissions alone never use
      up an attempt: the completed counts stay as they were. */
  lemma SubmissionUsesNoAttempt(rs: seq<TestResult>, id: nat, t: Test, correct: nat, timeTaken: int,
                                now: int, kind: bool)
    ensures CompletedCount(rs + [Submitted(id, t, correct, timeTaken, now)], kind) == CompletedCount(rs, kind)
  {
    assert (rs + [Submitted(id, t, correct, timeTaken, now)])[..|rs|] == rs;
  }

  /** An open result appended with the latest start time becomes the
      newest open result. */
  lemma LatestOpenIsNewest(rs: seq<TestResult>, r: TestResult)
    requires !r.isCompleted
    requires forall j :: 0 <= j < |rs| && !rs[j].isCompleted ==> rs[j].startedAt <= r.startedAt
    ensures NewestIncomplete(rs + [r]) == Some(|rs|)
  {
    assert (rs + [r])[..|rs|] == rs;
  }

  /** Appending an open result changes neither the attempt counts nor
      whether a completed result has passed. */
  lemma AppendOpenKeepsGate(rs: seq<TestResult>, r: TestResult, t: Test, trial: bool)
    requires !r.isCompleted
    ensures CompletedCount(rs + [r], trial) == CompletedCount(rs, trial)
    ensures HasPassed(rs + [r], t) == HasPassed(rs, t)
  {
    var s := rs + [r];
    assert s[..|rs|] == rs;
    if HasPassed(s, t) {
      var i :| 0 <= i < |s| && s[i].isCompleted && s[i].score >= t.passingScore;
      assert i < |rs| && s[i] == rs[i];
    }
    if HasPassed(rs, t) {
      var i :| 0 <= i < |rs| && rs[i].isCompleted && rs[i].score >= t.passingScore;
      assert s[i] == rs[i];
    }
  }

  /** Started and then submitted: the ledger holds two open results, and
      the next start within the time limit resumes the submitted one
      rather than opening a new attempt. */
  lemma {:induction false} SubmittedResultIsResumed(rs: seq<TestResult>, isBlocked: bool, reason: Option<string>,
                                                    hasCv: bool, newId: nat, t: Test, trial: bool,
                                                    correct: nat, timeTaken: int, now: int, later: int)
    requires Gate(isBlocked, reason, rs, t, trial).None? && !(HasPassed(rs, t) && hasCv)
    requires forall j :: 0 <= j < |rs| ==> rs[j].isCompleted
    requires now <= later < now + t.timeLimit * 60
    ensures var started := Start(rs, isBlocked, reason, hasCv, newId, t, trial, now).1;
            var submitted := started + [Submitted(newId + 1, t, correct, timeTaken, now)];
            !started[|rs|].isCompleted && !submitted[|rs| + 1].isCompleted &&
            Start(submitted, isBlocked, reason, hasCv, newId + 2, t, trial, later).0.Resumed? &&
            Start(submitted, isBlocked, reason, hasCv, newId + 2, t, trial, later).0.resultId == newId + 1
  {
    NoOpenAttemptAppends(rs, isBlocked, reason, hasCv, newId, t, trial, now);
    var attempt := NewAttempt(newId, t, |rs|, trial, now);
    var started := rs + [attempt];
    var sub := Submitted(newId + 1, t, correct, timeTaken, now);
    var submitted := started + [sub];
    TwoOpenKeepGate(rs, attempt, sub, isBlocked, reason, t, trial);
    SecondOpenIsNewest(rs, attempt, sub);
    NewestOpenIsResumed(submitted, isBlocked, reason, hasCv, newId + 2, t, trial, later);
  }

  /** Appending two open results leaves the gate and the passed check as
      they were. */
  lemma TwoOpenKeepGate(rs: seq<TestResult>, a: TestResult, b: TestResult,
                        isBlocked: bool, reason: Option<string>, t: Test, trial: bool)
    requires !a.isCompleted && !b.isCompleted
    ensures Gate(isBlocked, reason, rs + [a] + [b], t, trial) == Gate(isBlocked, reason, rs, t, trial)
    ensures HasPassed(rs + [a] + [b], t) == HasPassed(rs, t)
  {
    AppendOpenKeepsGate(rs, a, t, trial);
    AppendOpenKeepsGate(rs + [a], b, t, trial);
  }

  /** Over a completed history, the second of two open results appended at
      the same instant is the newest open one. */
  lemma SecondOpenIsNewest(rs: seq<TestResult>, a: TestResult, b: TestResult)
    requires forall j :: 0 <= j < |rs| ==> rs[j].isCompleted
    requires !a.isCompleted && !b.isCompleted && a.startedAt == b.startedAt
    ensures NewestIncomplete(rs + [a] + [b]) == Some(|rs| + 1)
  {
    var s := rs + [a];
    assert forall j :: 0 <= j < |s| && !s[j].isCompleted ==> s[j].startedAt <= b.startedAt by {
      assert forall j :: 0 <= j < |rs| ==> s[j] == rs[j];
    }
    LatestOpenIsNewest(s, b);
  }

  /** While the newest open result is within its time limit, starting
      resumes it. */
  lemma NewestOpenIsResumed(rs: seq<TestResult>, isBlocked: bool, reason: Option<string>,
                            hasCv: bool, newId: nat, t: Test, trial: bool, now: int)
    requires Gate(isBlocked, reason, rs, t, trial).None? && !(HasPassed(rs, t) && hasCv)
    requires NewestIncomplete(rs).Some?
    requires now - rs[NewestIncomplete(rs).value].startedAt < t.timeLimit * 60
    ensures var r := Start(rs, isBlocked, reason, hasCv, newId, t, trial, now).0;
      r.Resumed? && r.resultId == rs[NewestIncomplete(rs).value].id
  {
  }
}
