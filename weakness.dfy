/** The weakness analysis of src/engine.ts: the last-answer-wins answer map,
    the missed-question filter, the per-category ranking with its stable
    two-key sort, and the study bullets per category. */
module Weakness {
  import opened Types
  import opened Seqs

  /** new Map(answers.map(a => [a.questionId, a])): one entry per answered id,
      and a later record for the same id replaces an earlier one. */
  function AnswerMap(answers: seq<AnswerRecord>): (m: map<string, AnswerRecord>)
    ensures m.Keys == Elements(AnswerIds(answers))
    ensures forall id :: id in m ==> LastFor(answers, id) < |answers| && m[id] == answers[LastFor(answers, id)]
  {
    if answers == [] then map[]
    else
      var init := answers[..|answers| - 1];
      var last := answers[|answers| - 1];
      AnswerMapStep(answers, AnswerMap(init));
      AnswerMap(init)[last.questionId := last]
  }

  /** Entering the last record over the map of the earlier ones keeps the map exact. */
  lemma {:induction false} AnswerMapStep(answers: seq<AnswerRecord>, m0: map<string, AnswerRecord>)
    requires answers != []
    requires m0.Keys == Elements(AnswerIds(answers[..|answers| - 1]))
    requires forall id :: id in m0 ==>
      LastFor(answers[..|answers| - 1], id) < |answers| - 1 && m0[id] == answers[..|answers| - 1][LastFor(answers[..|answers| - 1], id)]
    ensures var m := m0[answers[|answers| - 1].questionId := answers[|answers| - 1]];
      && m.Keys == Elements(AnswerIds(answers))
      && forall id :: id in m ==> LastFor(answers, id) < |answers| && m[id] == answers[LastFor(answers, id)]
  {
    var init := answers[..|answers| - 1];
    var last := answers[|answers| - 1];
    assert answers == init + [last];
    assert AnswerIds(answers) == AnswerIds(init) + [last.questionId];
    assert Elements(AnswerIds(answers)) == Elements(AnswerIds(init)) + {last.questionId};
    AnswerMapValues(answers, m0);
  }

  lemma {:induction false} AnswerMapValues(answers: seq<AnswerRecord>, m0: map<string, AnswerRecord>)
    requires answers != []
    requires forall id :: id in m0 ==>
      LastFor(answers[..|answers| - 1], id) < |answers| - 1 && m0[id] == answers[..|answers| - 1][LastFor(answers[..|answers| - 1], id)]
    ensures var m := m0[answers[|answers| - 1].questionId := answers[|answers| - 1]];
      forall id :: id in m ==> LastFor(answers, id) < |answers| && m[id] == answers[LastFor(answers, id)]
  {
    var init := answers[..|answers| - 1];
    var last := answers[|answers| - 1];
    var m := m0[last.questionId := last];
    forall id | id in m ensures LastFor(answers, id) < |answers| && m[id] == answers[LastFor(answers, id)] {
      if id != last.questionId {
        var j := LastFor(init, id);
        assert LastFor(answers, id) == j;
        assert answers[j] == init[j];
      }
    }
  }

  /** The position of the last record for id, or |answers| when there is none. */
  function LastFor(answers: seq<AnswerRecord>, id: string): (j: nat)
    ensures j <= |answers|
    ensures j < |answers| ==> answers[j].questionId == id
    ensures forall k :: j < k < |answers| ==> answers[k].questionId != id
    ensures j == |answers| ==> forall k :: 0 <= k < |answers| ==> answers[k].questionId != id
  {
    if answers == [] then 0
    else if answers[|answers| - 1].questionId == id then |answers| - 1
    else
      var j := LastFor(answers[..|answers| - 1], id);
      if j == |answers| - 1 then |answers| else j
  }

  /** The map holds, for every answered id, the last record given for it. */
  lemma {:induction false} AnswerMapLastWins(answers: seq<AnswerRecord>, id: string)
    ensures id in AnswerMap(answers) <==> LastFor(answers, id) < |answers|
    ensures LastFor(answers, id) < |answers| ==> AnswerMap(answers)[id] == answers[LastFor(answers, id)]
  {
    var j := LastFor(answers, id);
    if j < |answers| {
      assert AnswerIds(answers)[j] == id;
    }
  }

  /** A question counts as missed when its answer exists and is not correct. */
  predicate IsMissed(q: Question, answerMap: map<string, AnswerRecord>)
  {
    q.id in answerMap && !answerMap[q.id].correct
  }

  function MissedIn(answerMap: map<string, AnswerRecord>): Question -> bool
  {
    (q: Question) => IsMissed(q, answerMap)
  }

  /** missedQuestions: the questions, in their order, whose answer exists and is incorrect. */
  function MissedQuestions(questions: seq<Question>, answers: seq<AnswerRecord>): (r: seq<Question>)
    ensures forall q :: q in r <==> q in questions && IsMissed(q, AnswerMap(answers))
    ensures forall q :: q in questions && IsMissed(q, AnswerMap(answers)) ==> multiset(r)[q] == multiset(questions)[q]
  {
    Filter(questions, MissedIn(AnswerMap(answers)))
  }

  /** The filter keeps order: the missed questions of a concatenation are the concatenation of the missed questions. */
  lemma {:induction false} MissedQuestionsConcat(a: seq<Question>, b: seq<Question>, answers: seq<AnswerRecord>)
    ensures MissedQuestions(a + b, answers) == MissedQuestions(a, answers) + MissedQuestions(b, answers)
  {
    FilterConcat(a, b, MissedIn(AnswerMap(answers)));
  }

  /** A question nobody answered is never reported as missed. */
  lemma {:induction false} UnansweredNeverMissed(questions: seq<Question>, answers: seq<AnswerRecord>, q: Question)
    requires forall a :: a in answers ==> a.questionId != q.id
    ensures q !in MissedQuestions(questions, answers)
  {
  }

  /** Whether a question is missed depends on the last record for its id only. */
  lemma {:induction false} MissedFollowsLastAnswer(questions: seq<Question>, answers: seq<AnswerRecord>, q: Question)
    requires q in questions && LastFor(answers, q.id) < |answers|
    ensures q in MissedQuestions(questions, answers) <==> !answers[LastFor(answers, q.id)].correct
  {
    AnswerMapLastWins(answers, q.id);
  }

  /** The category of every question, in question order. */
  function CategoriesOf(questions: seq<Question>): (cats: seq<Category>)
    ensures |cats| == |questions|
    ensures forall k :: 0 <= k < |questions| ==> cats[k] == questions[k].category
  {
    seq(|questions|, k requires 0 <= k < |questions| => questions[k].category)
  }

  /** How many of the questions are in category c. */
  function CategoryCount(questions: seq<Question>, c: Category): (n: nat)
    ensures n <= |questions|
  {
    if questions == [] then 0
    else CategoryCount(questions[..|questions| - 1], c) + (if questions[|questions| - 1].category == c then 1 else 0)
  }

  /** How many of the questions in category c are missed. */
  function MissedCount(questions: seq<Question>, c: Category, answerMap: map<string, AnswerRecord>): (n: nat)
    ensures n <= CategoryCount(questions, c)
  {
    if questions == [] then 0
    else
      var q := questions[|questions| - 1];
      MissedCount(questions[..|questions| - 1], c, answerMap) + (if q.category == c && IsMissed(q, answerMap) then 1 else 0)
  }

  /** The running counts agree with filtering: the category's questions, and its missed questions among them. */
  lemma {:induction false} CountsAreFilterLengths(questions: seq<Question>, c: Category, answerMap: map<string, AnswerRecord>)
    ensures CategoryCount(questions, c) == |Filter(questions, InCategory(c))|
    ensures MissedCount(questions, c, answerMap) == |Filter(Filter(questions, InCategory(c)), MissedIn(answerMap))|
  {
    CategoryCountIsFilterLength(questions, c);
    MissedCountIsFilterLength(questions, c, answerMap);
  }

  lemma {:induction false} CategoryCountIsFilterLength(questions: seq<Question>, c: Category)
    ensures CategoryCount(questions, c) == |Filter(questions, InCategory(c))|
  {
    if questions != [] {
      var init := questions[..|questions| - 1];
      var q := questions[|questions| - 1];
      assert questions == init + [q];
      CategoryCountIsFilterLength(init, c);
      FilterSnoc(init, q, InCategory(c));
    }
  }

  lemma {:induction false} MissedCountIsFilterLength(questions: seq<Question>, c: Category, answerMap: map<string, AnswerRecord>)
    ensures MissedCount(questions, c, answerMap) == |Filter(Filter(questions, InCategory(c)), MissedIn(answerMap))|
  {
    if questions != [] {
      var init := questions[..|questions| - 1];
      var q := questions[|questions| - 1];
      assert questions == init + [q];
      MissedCountIsFilterLength(init, c, answerMap);
      var inCat := Filter(init, InCategory(c));
      FilterSnoc(init, q, InCategory(c));
      if q.category == c {
        assert Filter(questions, InCategory(c)) == inCat + [q];
        FilterSnoc(inCat, q, MissedIn(answerMap));
        assert MissedIn(answerMap)(q) == IsMissed(q, answerMap);
      } else {
        assert Filter(questions, InCategory(c)) == inCat;
      }
    }
  }

  /** Appending one question adds one to its category's count, and one to its missed count when it is missed. */
  lemma {:induction false} CountsAppend(questions: seq<Question>, q: Question, c: Category, answerMap: map<string, AnswerRecord>)
    ensures CategoryCount(questions + [q], c) == CategoryCount(questions, c) + (if q.category == c then 1 else 0)
    ensures MissedCount(questions + [q], c, answerMap) ==
      MissedCount(questions, c, answerMap) + (if q.category == c && IsMissed(q, answerMap) then 1 else 0)
  {
    assert (questions + [q])[..|questions|] == questions;
  }

  /** A category that no question has has no questions and no misses. */
  lemma {:induction false} CountsAbsent(questions: seq<Question>, c: Category, answerMap: map<string, AnswerRecord>)
    requires c !in CategoriesOf(questions)
    ensures CategoryCount(questions, c) == 0 && MissedCount(questions, c, answerMap) == 0
  {
    if questions != [] {
      var init := questions[..|questions| - 1];
      assert CategoriesOf(questions)[..|init|] == CategoriesOf(init);
      CountsAbsent(init, c, answerMap);
    }
  }

  /** A category some question has counts at least that question. */
  lemma {:induction false} CountsPresent(questions: seq<Question>, c: Category)
    requires c in CategoriesOf(questions)
    ensures CategoryCount(questions, c) > 0
  {
    var init := questions[..|questions| - 1];
    if questions[|questions| - 1].category != c {
      assert CategoriesOf(questions) == CategoriesOf(init) + [questions[|questions| - 1].category];
      CountsPresent(init, c);
    }
  }

  /** The per-category counters kept in the stats map. */
  datatype Tally = Tally(total: nat, missed: nat)

  /** missRate: missed / total, or 0 for an empty category. */
  function MissRate(missed: nat, total: nat): (rate: real)
    ensures total == 0 ==> rate == 0.0
    ensures total > 0 ==> rate * total as real == missed as real
    ensures total > 0 && missed <= total ==> 0.0 <= rate <= 1.0
  {
    if total == 0 then 0.0 else missed as real / total as real
  }

  function Entry(c: Category, t: Tally): WeaknessResult
  {
    WeaknessResult(c, t.missed, t.total, MissRate(t.missed, t.total))
  }

  /** a sorts strictly ahead of b: higher miss rate, or equal rate and more misses. */
  predicate Before(a: WeaknessResult, b: WeaknessResult)
  {
    a.missRate > b.missRate || (a.missRate == b.missRate && a.missed > b.missed)
  }

  /** Neither sorts ahead of the other: the comparator returns 0. */
  predicate Tied(a: WeaknessResult, b: WeaknessResult)
  {
    !Before(a, b) && !Before(b, a)
  }

  predicate Sorted(r: seq<WeaknessResult>)
  {
    forall i, j :: 0 <= i < j < |r| ==> !Before(r[j], r[i])
  }

  /** Tied entries keep the order in which their categories first appear in cats. */
  predicate StableFor(r: seq<WeaknessResult>, cats: seq<Category>)
  {
    forall i, j :: 0 <= i < j < |r| && Tied(r[i], r[j]) ==> FirstIndex(cats, r[i].category) < FirstIndex(cats, r[j].category)
  }

  /** The entries are listed in first-appearance order of their categories. */
  predicate AppearanceOrdered(s: seq<WeaknessResult>, cats: seq<Category>)
  {
    forall i, j :: 0 <= i < j < |s| ==> FirstIndex(cats, s[i].category) < FirstIndex(cats, s[j].category)
  }

  /** Where a stable sort puts x among sorted entries t: after every entry strictly ahead of it. */
  function InsertPos(x: WeaknessResult, t: seq<WeaknessResult>): (p: nat)
    ensures p <= |t|
    ensures forall i :: 0 <= i < p ==> Before(t[i], x)
    ensures p < |t| ==> !Before(t[p], x)
  {
    if t == [] || !Before(t[0], x) then 0 else 1 + InsertPos(x, t[1..])
  }

  function Insert(x: WeaknessResult, t: seq<WeaknessResult>): (r: seq<WeaknessResult>)
    ensures |r| == |t| + 1
    ensures multiset(r) == multiset(t) + multiset{x}
  {
    var p := InsertPos(x, t);
    assert t == t[..p] + t[p..];
    t[..p] + [x] + t[p..]
  }

  /** The stable sort of the ranking, by miss rate and then misses, both descending. */
  function SortByRank(s: seq<WeaknessResult>): (r: seq<WeaknessResult>)
    ensures |r| == |s|
    ensures multiset(r) == multiset(s)
  {
    if s == [] then []
    else
      assert s == [s[0]] + s[1..];
      Insert(s[0], SortByRank(s[1..]))
  }

  /** Where each element of t sits once x has been inserted at InsertPos(x, t). */
  lemma {:induction false} InsertIndex(x: WeaknessResult, t: seq<WeaknessResult>)
    ensures forall k :: 0 <= k < InsertPos(x, t) ==> Insert(x, t)[k] == t[k]
    ensures Insert(x, t)[InsertPos(x, t)] == x
    ensures forall k :: InsertPos(x, t) < k <= |t| ==> Insert(x, t)[k] == t[k - 1]
  {
  }

  lemma {:induction false} InsertSorted(x: WeaknessResult, t: seq<WeaknessResult>)
    requires Sorted(t)
    ensures Sorted(Insert(x, t))
  {
    var p := InsertPos(x, t);
    var r := Insert(x, t);
    InsertIndex(x, t);
    forall i, j | 0 <= i < j < |r| ensures !Before(r[j], r[i]) {
      if i == p {
        assert !Before(t[j - 1], t[p]);
      }
    }
  }

  /** The sort yields entries in rank order: none sorts ahead of an earlier one. */
  lemma {:induction false} SortByRankSorted(s: seq<WeaknessResult>)
    ensures Sorted(SortByRank(s))
  {
    if s != [] {
      SortByRankSorted(s[1..]);
      InsertSorted(s[0], SortByRank(s[1..]));
    }
  }

  lemma {:induction false} InsertStable(x: WeaknessResult, t: seq<WeaknessResult>, cats: seq<Category>)
    requires StableFor(t, cats)
    requires forall y :: y in t ==> FirstIndex(cats, x.category) < FirstIndex(cats, y.category)
    ensures StableFor(Insert(x, t), cats)
  {
    var p := InsertPos(x, t);
    var r := Insert(x, t);
    InsertIndex(x, t);
    forall i, j | 0 <= i < j < |r| && Tied(r[i], r[j]) ensures FirstIndex(cats, r[i].category) < FirstIndex(cats, r[j].category) {
      if i == p {
        assert t[j - 1] in t;
      } else if i != p && j != p {
        var ti := if i < p then i else i - 1;
        var tj := if j < p then j else j - 1;
        assert r[i] == t[ti] && r[j] == t[tj] && ti < tj;
      }
    }
  }

  /** The sort is stable: entries the comparator ties keep their input order. */
  lemma {:induction false} SortByRankStable(s: seq<WeaknessResult>, cats: seq<Category>)
    requires AppearanceOrdered(s, cats)
    ensures StableFor(SortByRank(s), cats)
  {
    if s != [] {
      var rest := s[1..];
      assert AppearanceOrdered(rest, cats) by {
        forall i, j | 0 <= i < j < |rest| ensures FirstIndex(cats, rest[i].category) < FirstIndex(cats, rest[j].category) {
          assert rest[i] == s[i + 1] && rest[j] == s[j + 1];
        }
      }
      SortByRankStable(rest, cats);
      forall y | y in SortByRank(rest) ensures FirstIndex(cats, s[0].category) < FirstIndex(cats, y.category) {
        assert y in multiset(SortByRank(rest));
        var k :| 0 <= k < |rest| && rest[k] == y;
        assert s[k + 1] == y;
      }
      InsertStable(s[0], SortByRank(rest), cats);
    }
  }

  /** The category of every ranking entry, in ranking order. */
  function ResultCategories(r: seq<WeaknessResult>): (cats: seq<Category>)
    ensures |cats| == |r|
    ensures forall k :: 0 <= k < |r| ==> cats[k] == r[k].category
  {
    seq(|r|, k requires 0 <= k < |r| => r[k].category)
  }

  /** The entry the ranking holds for category c, given its counters. */
  predicate EntryCounts(e: WeaknessResult, questions: seq<Question>, answerMap: map<string, AnswerRecord>)
  {
    && e.total == CategoryCount(questions, e.category)
    && e.missed == MissedCount(questions, e.category, answerMap)
    && e.missRate == MissRate(e.missed, e.total)
  }

  /** The stats map and its key order after counting the questions of prefix. */
  predicate StatsFor(stats: map<Category, Tally>, order: seq<Category>, prefix: seq<Question>, answerMap: map<string, AnswerRecord>)
  {
    && order == Unique(CategoriesOf(prefix))
    && stats.Keys == Elements(order)
    && forall c :: c in stats ==> stats[c] == Tally(CategoryCount(prefix, c), MissedCount(prefix, c, answerMap))
  }

  /** Counting one more question keeps the stats map exact. */
  lemma {:induction false} StatsStep(prefix: seq<Question>, q: Question, answerMap: map<string, AnswerRecord>,
                                     stats: map<Category, Tally>, order: seq<Category>, current: Tally,
                                     stats': map<Category, Tally>, order': seq<Category>)
    requires StatsFor(stats, order, prefix, answerMap)
    requires current == if q.category in stats then stats[q.category] else Tally(0, 0)
    requires stats' == stats[q.category := Tally(current.total + 1, if IsMissed(q, answerMap) then current.missed + 1 else current.missed)]
    requires order' == if q.category in stats then order else order + [q.category]
    ensures StatsFor(stats', order', prefix + [q], answerMap)
  {
    OrderStep(prefix, q, stats, order, order');
    KeysStep(stats, order, q.category, stats'[q.category], stats', order');
    if q.category !in stats {
      CountsAbsent(prefix, q.category, answerMap);
    }
    CountsStep(prefix, q, answerMap, stats, current, stats');
  }

  /** Putting key k into a map whose keys are the elements of order keeps the
      keys those of order, with k appended when it is new. */
  lemma {:induction false} KeysStep<K, V>(m: map<K, V>, order: seq<K>, k: K, v: V, m': map<K, V>, order': seq<K>)
    requires m.Keys == Elements(order) && m' == m[k := v]
    requires order' == if k in m then order else order + [k]
    ensures m'.Keys == Elements(order')
  {
    assert m'.Keys == m.Keys + {k};
    assert Elements(order + [k]) == Elements(order) + {k};
  }

  lemma {:induction false} OrderStep(prefix: seq<Question>, q: Question, stats: map<Category, Tally>, order: seq<Category>, order': seq<Category>)
    requires order == Unique(CategoriesOf(prefix)) && stats.Keys == Elements(order)
    requires order' == if q.category in stats then order else order + [q.category]
    ensures order' == Unique(CategoriesOf(prefix + [q]))
    ensures q.category in stats <==> q.category in CategoriesOf(prefix)
  {
    assert CategoriesOf(prefix + [q]) == CategoriesOf(prefix) + [q.category];
    UniqueSnoc(CategoriesOf(prefix), q.category);
  }

  lemma {:induction false} CountsStep(prefix: seq<Question>, q: Question, answerMap: map<string, AnswerRecord>,
                                      stats: map<Category, Tally>, current: Tally, stats': map<Category, Tally>)
    requires forall c :: c in stats ==> stats[c] == Tally(CategoryCount(prefix, c), MissedCount(prefix, c, answerMap))
    requires current == Tally(CategoryCount(prefix, q.category), MissedCount(prefix, q.category, answerMap))
    requires stats' == stats[q.category := Tally(current.total + 1, if IsMissed(q, answerMap) then current.missed + 1 else current.missed)]
    ensures forall c :: c in stats' ==> stats'[c] == Tally(CategoryCount(prefix + [q], c), MissedCount(prefix + [q], c, answerMap))
  {
    forall c | c in stats'
      ensures stats'[c] == Tally(CategoryCount(prefix + [q], c), MissedCount(prefix + [q], c, answerMap))
    {
      CountsAppend(prefix, q, c, answerMap);
    }
  }

  /** rankWeaknesses: count questions and misses per category in a map whose
      keys keep insertion order, list one entry per key, and sort the list
      stably by miss rate and then misses, both descending. */
  method RankWeaknesses(questions: seq<Question>, answers: seq<AnswerRecord>) returns (r: seq<WeaknessResult>)
    ensures Elements(ResultCategories(r)) == Elements(CategoriesOf(questions))
    ensures Distinct(ResultCategories(r))
    ensures forall e :: e in r ==> EntryCounts(e, questions, AnswerMap(answers))
    ensures forall e :: e in r ==> 0 < e.total && e.missed <= e.total
    ensures Sorted(r)
    ensures StableFor(r, CategoriesOf(questions))
  {
    var answerMap := AnswerMap(answers);
    var stats: map<Category, Tally> := map[];
    // The order in which categories were first put into the stats map.
    var order: seq<Category> := [];
    for i := 0 to |questions|
      invariant StatsFor(stats, order, questions[..i], answerMap)
    {
      var q := questions[i];
      assert questions[..i + 1] == questions[..i] + [q];
      var current := if q.category in stats then stats[q.category] else Tally(0, 0);
      ghost var (stats0, order0) := (stats, order);
      if q.category !in stats {
        order := order + [q.category];
      }
      stats := stats[q.category := Tally(current.total + 1, if IsMissed(q, answerMap) then current.missed + 1 else current.missed)];
      StatsStep(questions[..i], q, answerMap, stats0, order0, current, stats, order);
    }
    assert questions[..|questions|] == questions;
    var entries := seq(|order|, k requires 0 <= k < |order| => Entry(order[k], stats[order[k]]));
    r := SortByRank(entries);
    RankingProperties(questions, answerMap, order, entries, r);
  }

  /** What the ranking's entries list and its sorted form satisfy. */
  lemma {:induction false} RankingProperties(questions: seq<Question>, answerMap: map<string, AnswerRecord>, order: seq<Category>,
                          entries: seq<WeaknessResult>, r: seq<WeaknessResult>)
    requires order == Unique(CategoriesOf(questions))
    requires |entries| == |order|
    requires forall k :: 0 <= k < |order| ==> entries[k].category == order[k] && EntryCounts(entries[k], questions, answerMap)
    requires r == SortByRank(entries)
    ensures Elements(ResultCategories(r)) == Elements(CategoriesOf(questions))
    ensures Distinct(ResultCategories(r))
    ensures forall e :: e in r ==> EntryCounts(e, questions, answerMap)
    ensures forall e :: e in r ==> 0 < e.total && e.missed <= e.total
    ensures Sorted(r)
    ensures StableFor(r, CategoriesOf(questions))
  {
    var cats := CategoriesOf(questions);
    assert ResultCategories(entries) == order;
    SameElements(entries, r);
    forall e | e in r ensures 0 < e.total {
      var k :| 0 <= k < |entries| && entries[k] == e;
      CountsPresent(questions, order[k]);
    }
    CategoriesKept(entries, r);
    DistinctCategoriesKept(entries, r);
    UniqueInFirstOccurrenceOrder(cats);
    assert AppearanceOrdered(entries, cats);
    SortByRankSorted(entries);
    SortByRankStable(entries, cats);
  }

  /** A sequence and its sort hold the same entries. */
  lemma {:induction false} SameElements(entries: seq<WeaknessResult>, r: seq<WeaknessResult>)
    requires r == SortByRank(entries)
    ensures forall e :: e in r <==> e in entries
  {
    forall e ensures e in r <==> e in entries {
      assert e in r <==> e in multiset(r);
      assert e in entries <==> e in multiset(entries);
    }
  }

  /** Sorting keeps the set of categories listed. */
  lemma {:induction false} CategoriesKept(entries: seq<WeaknessResult>, r: seq<WeaknessResult>)
    requires forall e :: e in r <==> e in entries
    ensures Elements(ResultCategories(r)) == Elements(ResultCategories(entries))
  {
    forall c | c in Elements(ResultCategories(r)) ensures c in Elements(ResultCategories(entries)) {
      var k :| 0 <= k < |r| && ResultCategories(r)[k] == c;
      assert r[k] in entries;
      var m :| 0 <= m < |entries| && entries[m] == r[k];
      assert ResultCategories(entries)[m] == c;
    }
    forall c | c in Elements(ResultCategories(entries)) ensures c in Elements(ResultCategories(r)) {
      var k :| 0 <= k < |entries| && ResultCategories(entries)[k] == c;
      assert entries[k] in r;
      var m :| 0 <= m < |r| && r[m] == entries[k];
      assert ResultCategories(r)[m] == c;
    }
  }

  /** Sorting a list whose categories are distinct keeps them distinct. */
  lemma {:induction false} DistinctCategoriesKept(entries: seq<WeaknessResult>, r: seq<WeaknessResult>)
    requires Distinct(ResultCategories(entries))
    requires r == SortByRank(entries)
    ensures Distinct(ResultCategories(r))
  {
    assert Distinct(entries) by {
      forall i, j | 0 <= i < j < |entries| ensures entries[i] != entries[j] {
        assert ResultCategories(entries)[i] != ResultCategories(entries)[j];
      }
    }
    DistinctCounts(entries);
    forall i, j | 0 <= i < j < |r| ensures ResultCategories(r)[i] != ResultCategories(r)[j] {
      if r[i].category == r[j].category {
        assert r[i] in multiset(entries) && r[j] in multiset(entries);
        var a :| 0 <= a < |entries| && entries[a] == r[i];
        var b :| 0 <= b < |entries| && entries[b] == r[j];
        assert ResultCategories(entries)[a] == ResultCategories(entries)[b];
        TwoOccurrences(r, i, j);
      }
    }
  }

  /** weaknessBullets: the two study hints shown for a category. */
  datatype Bullets = Bullets(first: string, second: string)

  function WeaknessBullets(c: Category): Bullets
  {
    match c
    case RightOfWay => Bullets("Review yielding order at stops and uncontrolled intersections.", "Practice who must wait during left turns and crosswalk conflicts.")
    case SignsSignalsMarkings => Bullets("Revisit sign colors and signal meanings.", "Practice lane markings and turn-arrow lane rules.")
    case SpeedAndFollowingDistance => Bullets("Review safe speed choices for weather and visibility.", "Use 3-second gap basics and increase space in riskier conditions.")
    case LaneUseAndTurns => Bullets("Reinforce lane position before and after turns.", "Practice mirror-signal-head-check sequence before lane changes.")
    case Parking => Bullets("Study curb color restrictions and prohibited parking distances.", "Practice uphill/downhill wheel direction rules.")
    case FreewayDriving => Bullets("Review merge strategy using acceleration lanes and gap selection.", "Reinforce missed-exit and shoulder-use rules.")
    case SharingTheRoad => Bullets("Review how to pass bikes and interact with motorcycles safely.", "Study truck blind spots and pedestrian right-of-way priority.")
    case DistractedImpairedDriving => Bullets("Reinforce no-distraction habits before and during trips.", "Review impairment risks from alcohol, drugs, and fatigue.")
    case HazardsAndDefensiveDriving => Bullets("Practice hazard scanning and early speed adjustment.", "Review skid, glare, and work-zone response basics.")
    case LicensingRulesAndSafety => Bullets("Review restraint, lighting, and carry-document requirements.", "Practice legal expectations during traffic stops.")
  }
}
