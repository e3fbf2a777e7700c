/** Question selection for one request of the `questions` action
    (backend/api/views.py): how many questions are shown, which ones, and
    in what order. Python's `random.sample` and `random.shuffle` are modelled
    with an explicit oracle `rnd` of draws; every property below holds for
    every oracle, so it holds whatever the random generator returns. */
module QuestionSelection {
  import opened Common
  import opened TestModels

  /** How many of the n questions in the pool one request shows. */
  function ShownCount(t: Test, trial: bool, n: nat): int {
    if trial then Min(t.trialQuestionsCount, n)
    else if t.randomQuestionsCount > 0 then Min(t.randomQuestionsCount, n)
    else n
  }

  /** `random.sample` raises for a negative size. Only the trial branch can
      ask for one, and it does for every pool, since any pool is longer than
      a negative count. */
  predicate SampleFails(t: Test, trial: bool) {
    trial && t.trialQuestionsCount < 0
  }

  /** The i-th draw of the oracle, reduced below `bound`. */
  function Draw(rnd: seq<nat>, i: nat, bound: nat): (j: nat)
    requires bound > 0
    ensures j < bound
  {
    (if i < |rnd| then rnd[i] else 0) % bound
  }

  /** `random.sample(pool, k)`: k questions taken from k distinct positions
      of the pool. */
  method Sample(pool: seq<Question>, k: nat, rnd: seq<nat>) returns (s: seq<Question>)
    requires k <= |pool|
    ensures |s| == k
    ensures multiset(s) <= multiset(pool)
  {
    var rest := pool;
    s := [];
    var i := 0;
    while i < k
      invariant 0 <= i <= k && |s| == i && |rest| == |pool| - i
      invariant multiset(s) + multiset(rest) == multiset(pool)
    {
      var j := Draw(rnd, i, |rest|);
      assert rest == rest[..j] + [rest[j]] + rest[j + 1..];
      s := s + [rest[j]];
      rest := rest[..j] + rest[j + 1..];
      i := i + 1;
    }
  }

  /** `random.shuffle(a)`: Fisher-Yates in place; the oracle chooses every
      swap partner. */
  method Shuffle(a: array<Question>, rnd: seq<nat>)
    modifies a
    ensures multiset(a[..]) == old(multiset(a[..]))
  {
    var i := a.Length;
    while i > 1
      invariant 0 <= i <= a.Length
      invariant multiset(a[..]) == old(multiset(a[..]))
    {
      i := i - 1;
      var j := Draw(rnd, a.Length - 1 - i, i + 1);
      a[i], a[j] := a[j], a[i];
    }
  }

  /** The question list one request returns: `None` when `random.sample`
      raises, otherwise `ShownCount` questions drawn from distinct positions
      of the pool, in a shuffled order. */
  method Select(pool: seq<Question>, t: Test, trial: bool, sampleRnd: seq<nat>, shuffleRnd: seq<nat>)
    returns (r: Option<seq<Question>>)
    ensures r.None? <==> SampleFails(t, trial)
    ensures r.Some? ==> |r.value| == ShownCount(t, trial, |pool|)
    ensures r.Some? ==> multiset(r.value) <= multiset(pool)
  {
    var chosen := pool;
    if trial {
      if |pool| > t.trialQuestionsCount {
        if t.trialQuestionsCount < 0 {
          return None;
        }
        chosen := Sample(pool, t.trialQuestionsCount, sampleRnd);
      }
    } else if t.randomQuestionsCount > 0 {
      if |pool| > t.randomQuestionsCount {
        chosen := Sample(pool, t.randomQuestionsCount, sampleRnd);
      }
    }
    var a := new Question[|chosen|](i requires 0 <= i < |chosen| => chosen[i]);
    assert a[..] == chosen;
    Shuffle(a, shuffleRnd);
    return Some(a[..]);
  }

  predicate DistinctIds(qs: seq<Question>) {
    forall i, j :: 0 <= i < j < |qs| ==> qs[i].id != qs[j].id
  }

  /** Distinct questions in the pool stay distinct after selection: taking
      a sub-multiset of a pool with distinct ids never repeats an id. */
  lemma {:induction false} SubPoolKeepsDistinctIds(pool: seq<Question>, sel: seq<Question>)
    requires DistinctIds(pool)
    requires multiset(sel) <= multiset(pool)
    ensures DistinctIds(sel)
  {
    forall i, j | 0 <= i < j < |sel|
      ensures sel[i].id != sel[j].id
    {
      MultisetPair(sel, i, j);
      assert sel[i] in multiset(pool) && sel[j] in multiset(pool);
      var p :| 0 <= p < |pool| && pool[p] == sel[i];
      var q :| 0 <= q < |pool| && pool[q] == sel[j];
      SingleOccurrence(pool, p);
    }
  }

  lemma MultisetPair<T>(s: seq<T>, i: nat, j: nat)
    requires i < j < |s|
    ensures multiset([s[i], s[j]]) <= multiset(s)
  {
    assert s == s[..i] + [s[i]] + s[i + 1..j] + [s[j]] + s[j + 1..];
  }

  lemma SingleOccurrence(pool: seq<Question>, p: nat)
    requires DistinctIds(pool) && p < |pool|
    ensures multiset(pool)[pool[p]] == 1
  {
    assert pool == pool[..p] + [pool[p]] + pool[p + 1..];
    assert pool[p] !in pool[..p];
    assert pool[p] !in pool[p + 1..];
    assert multiset(pool[..p])[pool[p]] == 0;
    assert multiset(pool[p + 1..])[pool[p]] == 0;
  }

  /** With the column defaults a regular request shows every question and a
      trial request at most ten. */
  lemma DefaultCounts(id: nat, title: string, maxTrial: int, n: nat)
    ensures ShownCount(NewTest(id, title, maxTrial), false, n) == n
    ensures ShownCount(NewTest(id, title, maxTrial), true, n) == Min(10, n)
    ensures !SampleFails(NewTest(id, title, maxTrial), true)
  {
  }
}
