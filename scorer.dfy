/** The scorer of src/engine.ts: correct and wrong counts and the pass mark,
    which is the ceiling of 90% of the attempt's size. */
module Scorer {
  import opened Types
  import opened Seqs

  datatype Score = Score(total: nat, correct: nat, wrong: int, passed: bool, passingCorrect: nat)

  function IsCorrect(): AnswerRecord -> bool
  {
    (a: AnswerRecord) => a.correct
  }

  /** The number of answer records flagged correct (answers.filter(a => a.correct).length). */
  function CorrectCount(answers: seq<AnswerRecord>): (n: nat)
    ensures n <= |answers|
    ensures n == |answers| <==> forall a :: a in answers ==> a.correct
  {
    var kept := Filter(answers, IsCorrect());
    CountEqualsOnlyIfAll(answers, IsCorrect());
    |kept|
  }

  lemma {:induction false} CountEqualsOnlyIfAll<T>(s: seq<T>, p: T -> bool)
    ensures |Filter(s, p)| == |s| <==> forall x :: x in s ==> p(x)
  {
    if s != [] {
      var init := s[..|s| - 1];
      var last := s[|s| - 1];
      assert s == init + [last];
      CountEqualsOnlyIfAll(init, p);
    }
  }

  /** Counting is additive over appended answers. */
  lemma {:induction false} CorrectCountAppend(a: seq<AnswerRecord>, b: seq<AnswerRecord>)
    ensures CorrectCount(a + b) == CorrectCount(a) + CorrectCount(b)
  {
    FilterConcat(a, b, IsCorrect());
  }

  /** Math.ceil(total * 0.9), computed on naturals as (9 * total + 9) / 10. */
  function PassingCorrect(total: nat): (p: nat)
    ensures 9 * total <= 10 * p < 9 * total + 10
  {
    (9 * total + 9) / 10
  }

  /** scoreAttempt over the attempt's questions and the answers given. */
  function ScoreAttempt(questions: seq<Question>, answers: seq<AnswerRecord>): (s: Score)
    ensures s.total == |questions|
    ensures s.correct == CorrectCount(answers)
    ensures s.wrong == s.total - s.correct
    ensures s.passingCorrect == PassingCorrect(|questions|)
    ensures s.passed <==> 10 * s.correct >= 9 * s.total
  {
    var total := |questions|;
    var correct := CorrectCount(answers);
    var passingCorrect := PassingCorrect(total);
    Score(total, correct, total - correct, correct >= passingCorrect, passingCorrect)
  }

  /** The two attempt sizes the app uses: 36 of 40 and 9 of 10 are needed. */
  lemma {:induction false} PassMarks()
    ensures PassingCorrect(40) == 36 && PassingCorrect(10) == 9
    ensures forall c: nat :: c >= 36 <==> 10 * c >= 9 * 40
  {
  }

  /** With at most one answer per question of the attempt, no more answers
      than questions are correct, so the wrong count is never negative. */
  lemma {:induction false} WrongNeverNegative(questions: seq<Question>, answers: seq<AnswerRecord>)
    requires Distinct(AnswerIds(answers))
    requires forall a :: a in answers ==> exists q :: q in questions && q.id == a.questionId
    ensures 0 <= ScoreAttempt(questions, answers).wrong <= |questions|
  {
    var ids := AnswerIds(answers);
    var qids := QuestionIds(questions);
    forall x | x in ids ensures x in qids {
      var k :| 0 <= k < |ids| && ids[k] == x;
      assert answers[k] in answers;
      var q :| q in questions && q.id == answers[k].questionId;
      var m :| 0 <= m < |questions| && questions[m] == q;
      assert qids[m] == x;
    }
    DistinctWithin(ids, qids);
  }
}
