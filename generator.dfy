/** The deterministic question-bank generator of scripts/generateQuestions.ts:
    rotation, the seeded choice order, the difficulty split of the variants,
    the scenario prefix, the question text and id, and the generation loop.
    The literal content tables are a parameter (Content). */
module Generator {
  import opened Types
  import opened Seqs
  import opened Text
  import Sampler
  import Validator

  /** rotate(arr, shift): position i holds arr[(i + shift) % n]. */
  function Rotate<T>(arr: seq<T>, shift: nat): (r: seq<T>)
    ensures |r| == |arr|
  {
    seq(|arr|, i requires 0 <= i < |arr| => arr[(i + shift) % |arr|])
  }

  /** A rotation by a shift below the length moves the first shift elements
      to the back (the generator only rotates by seed % n). */
  lemma {:induction false} RotateSplice<T>(arr: seq<T>, shift: nat)
    requires shift < |arr|
    ensures Rotate(arr, shift) == arr[shift..] + arr[..shift]
  {
    var n := |arr|;
    var r := Rotate(arr, shift);
    var t := arr[shift..] + arr[..shift];
    forall i | 0 <= i < n ensures r[i] == t[i] {
      ModOnce(i + shift, n);
      if i < n - shift {
        assert t[i] == arr[shift..][i];
      } else {
        assert t[i] == arr[..shift][i - (n - shift)];
      }
    }
  }

  /** Below twice the modulus, the remainder takes the modulus off at most once. */
  lemma {:induction false} ModOnce(a: nat, n: nat)
    requires 0 < n && a < 2 * n
    ensures a % n == if a < n then a else a - n
  {
  }

  /** So such a rotation is a permutation of its input. */
  lemma {:induction false} RotatePermutes<T>(arr: seq<T>, shift: nat)
    requires shift < |arr| || arr == []
    ensures multiset(Rotate(arr, shift)) == multiset(arr)
  {
    if arr != [] {
      RotateSplice(arr, shift);
      assert arr == arr[..shift] + arr[shift..];
    }
  }

  function Min(a: nat, b: nat): nat
  {
    if a <= b then a else b
  }

  /** unique(distractors.filter(d => d !== correct)). */
  function Eligible(correct: string, distractors: seq<string>): (e: seq<string>)
    ensures Distinct(e)
    ensures forall d :: d in e <==> d in distractors && d != correct
  {
    Unique(Filter(distractors, (d: string) => d != correct))
  }

  /** [correct, ...rotate(eligible, seed % eligible.length).slice(0, 3)]; with
      no eligible distractor the rotation is empty whatever the shift. */
  function BaseChoices(correct: string, distractors: seq<string>, seed: nat): (base: seq<string>)
    ensures 1 <= |base| <= 4 && base[0] == correct
    ensures |base| == 1 + Min(3, |Eligible(correct, distractors)|)
    ensures forall k :: 1 <= k < |base| ==> base[k] in distractors && base[k] != correct
    ensures Distinct(base)
  {
    var eligible := Eligible(correct, distractors);
    var shift := if |eligible| == 0 then 0 else seed % |eligible|;
    var rotated := Rotate(eligible, shift);
    RotatePermutes(eligible, shift);
    var taken := rotated[..Min(3, |rotated|)];
    TakenFromEligible(eligible, rotated, taken);
    [correct] + taken
  }

  lemma {:induction false} TakenFromEligible(eligible: seq<string>, rotated: seq<string>, taken: seq<string>)
    requires Distinct(eligible) && multiset(rotated) == multiset(eligible)
    requires |taken| <= |rotated| && taken == rotated[..|taken|]
    ensures Distinct(taken) && forall x :: x in taken ==> x in eligible
  {
    assert rotated == taken + rotated[|taken|..];
    assert multiset(taken) <= multiset(rotated);
    PermutationKeepsDistinct(taken, eligible);
    forall x | x in taken ensures x in eligible {
      assert x in multiset(taken);
    }
  }

  /** The swap partner of step i of the order loop: j = (seed + i * 7) % (i + 1). */
  function ChoicePicks(seed: nat): (picks: seq<nat>)
    ensures |picks| == 4 && PicksFit(picks, 4)
  {
    seq(4, i requires 0 <= i < 4 => (seed + i * 7) % (i + 1))
  }

  /** Step i of the loop swaps with the pick for i, and the picks fit the first i + 1 steps. */
  lemma {:induction false} ChoicePickAt(seed: nat, i: nat)
    requires 0 < i < 4
    ensures PicksFit(ChoicePicks(seed), i + 1) && ChoicePicks(seed)[i] == (seed + i * 7) % (i + 1)
  {
  }

  /** The order array after the loop. */
  function ShuffledOrder(seed: nat): seq<nat>
  {
    SwapDown([0, 1, 2, 3], ChoicePicks(seed), 4)
  }

  /** The loop leaves a permutation of 0, 1, 2, 3. */
  lemma {:induction false} OrderIsPermutation(seed: nat)
    ensures multiset(ShuffledOrder(seed)) == multiset{0, 1, 2, 3}
  {
    var start: seq<nat> := [0, 1, 2, 3];
    SwapDownPermutes(start, ChoicePicks(seed), 4);
    assert multiset(start) == multiset{0, 1, 2, 3};
  }

  /** A permutation of 0, 1, 2, 3 holds each of them once. */
  lemma {:induction false} PermutationOfFour(o: seq<nat>)
    requires |o| == 4 && multiset(o) == multiset{0, 1, 2, 3}
    ensures Distinct(o)
    ensures forall k :: 0 <= k < 4 ==> o[k] < 4
    ensures exists k :: 0 <= k < 4 && o[k] == 0
  {
    DistinctCounts(o);
    forall k | 0 <= k < 4 ensures o[k] < 4 {
      assert o[k] in multiset(o);
    }
    assert 0 in multiset(o);
  }

  /** order.map(idx => base[idx]); an index past the end of base reads undefined. */
  function ReadThrough(base: seq<string>, order: seq<nat>): (choices: seq<Option<string>>)
    requires |order| == 4
    ensures |choices| == 4
  {
    seq(4, k requires 0 <= k < 4 => if order[k] < |base| then Some(base[order[k]]) else None)
  }

  function ChoicesFor(correct: string, distractors: seq<string>, seed: nat): (choices: seq<Option<string>>)
    ensures |choices| == 4
  {
    ReadThrough(BaseChoices(correct, distractors, seed), ShuffledOrder(seed))
  }

  /** Array.prototype.indexOf: the first position holding x, or -1. */
  function IndexOf<T(==)>(s: seq<T>, x: T): (i: int)
    ensures -1 <= i < |s|
    ensures i >= 0 <==> x in s
    ensures i >= 0 ==> s[i] == x && x !in s[..i]
  {
    if x in s then FirstIndex(s, x) else -1
  }

  /** Reading distinct base choices through a permutation of 0..3 puts the
      first one at exactly the position holding 0 and reads only base
      entries; with four base choices every position is filled and no two
      agree. */
  lemma {:induction false} ReadThroughPermutation(base: seq<string>, order: seq<nat>)
    requires |order| == 4 && multiset(order) == multiset{0, 1, 2, 3}
    requires 1 <= |base| <= 4 && Distinct(base)
    ensures var choices := ReadThrough(base, order);
      && Some(base[0]) in choices
      && (forall k :: 0 <= k < 4 && choices[k] == Some(base[0]) ==> order[k] == 0)
      && (forall k :: 0 <= k < 4 && choices[k].Some? ==> choices[k].value in base)
    ensures |base| == 4 ==> var choices := ReadThrough(base, order);
      (forall k :: 0 <= k < 4 ==> choices[k].Some?) && Distinct(choices)
  {
    var choices := ReadThrough(base, order);
    PermutationOfFour(order);
    var z :| 0 <= z < 4 && order[z] == 0;
    assert choices[z] == Some(base[0]);
    if |base| == 4 {
      forall i, j | 0 <= i < j < 4 ensures choices[i] != choices[j] {
        assert order[i] != order[j];
      }
    }
  }

  /** The correct answer sits at exactly one position, which indexOf finds;
      every other filled position holds a distractor; with at least three
      eligible distractors every position is filled and the four choices are
      distinct. */
  lemma {:induction false} ChoicesProperties(correct: string, distractors: seq<string>, seed: nat)
    ensures var choices := ChoicesFor(correct, distractors, seed);
      && 0 <= IndexOf(choices, Some(correct)) < 4
      && (forall k :: 0 <= k < 4 && choices[k] == Some(correct) ==> k == IndexOf(choices, Some(correct)))
      && (forall k :: 0 <= k < 4 && choices[k].Some? && choices[k].value != correct ==> choices[k].value in distractors)
    ensures |Eligible(correct, distractors)| >= 3 ==>
      var choices := ChoicesFor(correct, distractors, seed);
      (forall k :: 0 <= k < 4 ==> choices[k].Some?) && Distinct(choices)
  {
    OrderIsPermutation(seed);
    AnswerThroughOrder(correct, distractors, BaseChoices(correct, distractors, seed), ShuffledOrder(seed));
  }

  lemma {:induction false} AnswerThroughOrder(correct: string, distractors: seq<string>, base: seq<string>, order: seq<nat>)
    requires |order| == 4 && multiset(order) == multiset{0, 1, 2, 3}
    requires 1 <= |base| <= 4 && Distinct(base) && base[0] == correct
    requires forall k :: 1 <= k < |base| ==> base[k] in distractors
    ensures var choices := ReadThrough(base, order);
      && 0 <= IndexOf(choices, Some(correct)) < 4
      && (forall k :: 0 <= k < 4 && choices[k] == Some(correct) ==> k == IndexOf(choices, Some(correct)))
      && (forall k :: 0 <= k < 4 && choices[k].Some? && choices[k].value != correct ==> choices[k].value in distractors)
    ensures |base| == 4 ==> var choices := ReadThrough(base, order);
      (forall k :: 0 <= k < 4 ==> choices[k].Some?) && Distinct(choices)
  {
    ReadThroughPermutation(base, order);
    var choices := ReadThrough(base, order);
    var i := IndexOf(choices, Some(correct));
    assert order[i] == 0;
    forall k | 0 <= k < 4 && choices[k].Some? && choices[k].value != correct ensures choices[k].value in distractors {
      var m :| 0 <= m < |base| && base[m] == choices[k].value;
    }
  }

  /** buildChoices: the base choices, then the order array shuffled in place by
      the seeded swaps, then the choices read through the order. */
  method BuildChoices(correct: string, distractors: seq<string>, seed: nat) returns (choices: seq<Option<string>>, answerIndex: int)
    ensures choices == ChoicesFor(correct, distractors, seed)
    ensures 0 <= answerIndex < 4 && choices[answerIndex] == Some(correct)
    ensures forall k :: 0 <= k < 4 && choices[k] == Some(correct) ==> k == answerIndex
    ensures |Eligible(correct, distractors)| >= 3 ==> (forall k :: 0 <= k < 4 ==> choices[k].Some?) && Distinct(choices)
  {
    var base := BaseChoices(correct, distractors, seed);
    var order := ShuffleOrder(seed);
    choices := ReadThrough(base, order);
    ChoicesProperties(correct, distractors, seed);
    answerIndex := IndexOf(choices, Some(correct));
  }

  /** The order array [0, 1, 2, 3] and the loop that swaps order[i] with
      order[(seed + i * 7) % (i + 1)] for i from 3 down to 1. */
  method ShuffleOrder(seed: nat) returns (result: seq<nat>)
    ensures result == ShuffledOrder(seed)
    ensures multiset(result) == multiset{0, 1, 2, 3}
  {
    var order := new nat[4](k => k);
    assert order[..] == [0, 1, 2, 3];
    ghost var picks := ChoicePicks(seed);
    var i := 3;
    while i > 0
      invariant 0 <= i <= 3
      invariant SwapDown(order[..], picks, i + 1) == ShuffledOrder(seed)
    {
      var j := (seed + i * 7) % (i + 1);
      ChoicePickAt(seed, i);
      SwapDownStep(order[..], picks, i, j);
      Sampler.Exchange(order, i, j);
      i := i - 1;
    }
    result := order[..];
    OrderIsPermutation(seed);
  }

  /** QUESTIONS_PER_CATEGORY and DIFFICULTY_COUNTS. */
  const QuestionsPerCategory: nat := 60
  const EasyCount: nat := 15
  const MediumCount: nat := 30

  /** difficultyByVariant: the first 15 variants are easy, the next 30 medium, the rest hard. */
  function DifficultyByVariant(index: nat): Difficulty
  {
    if index < EasyCount then Easy
    else if index < EasyCount + MediumCount then Medium
    else Hard
  }

  /** How many of the variants 0 to n-1 have difficulty d. */
  function LevelCount(n: nat, d: Difficulty): (c: nat)
    ensures c <= n
  {
    if n == 0 then 0 else LevelCount(n - 1, d) + (if DifficultyByVariant(n - 1) == d then 1 else 0)
  }

  /** The counts grow in three consecutive runs. */
  lemma {:induction false} LevelCounts(n: nat)
    ensures LevelCount(n, Easy) == Min(n, 15)
    ensures LevelCount(n, Medium) == if n <= 15 then 0 else Min(n - 15, 30)
    ensures LevelCount(n, Hard) == if n <= 45 then 0 else n - 45
  {
    if n > 0 {
      LevelCounts(n - 1);
    }
  }

  /** So the 60 variants of a category split 15 easy, 30 medium and 15 hard. */
  lemma {:induction false} VariantSplit()
    ensures LevelCount(QuestionsPerCategory, Easy) == 15
    ensures LevelCount(QuestionsPerCategory, Medium) == 30
    ensures LevelCount(QuestionsPerCategory, Hard) == 15
  {
    LevelCounts(QuestionsPerCategory);
  }

  /** One concept of a category's table. */
  datatype Concept = Concept(rule: string, prompts: seq<string>, correct: string, distractors: seq<string>)

  datatype CategoryData = CategoryData(ref: string, concepts: seq<Concept>)

  /** The literal tables the generator reads, indexed by category or difficulty. */
  datatype Content = Content(
    categories: Category -> CategoryData,
    environments: Difficulty -> seq<string>,
    decisionPrompts: Difficulty -> seq<string>,
    complications: Category -> seq<string>,
    genericDistractors: Difficulty -> seq<string>,
    categoryDistractors: Category -> seq<string>)

  /** The distractor list a concept is offered at a difficulty. */
  function DistractorsFor(t: Content, c: Category, d: Difficulty, concept: Concept): seq<string>
  {
    concept.distractors + t.genericDistractors(d) + t.categoryDistractors(c)
  }

  /** What the tables must provide for every question to get four choices:
      the lookups succeed, and every concept has at least three distractors
      different from its correct answer at every difficulty. */
  predicate ContentOk(t: Content)
  {
    && TablesNonEmpty(t)
    && (forall c: Category, d: Difficulty, k :: 0 <= k < |t.categories(c).concepts| ==>
          |Eligible(t.categories(c).concepts[k].correct, DistractorsFor(t, c, d, t.categories(c).concepts[k]))| >= 3)
  }

  /** composeScenarioPrefix: an environment line of the difficulty and a
      complication of the category, both chosen by the seed. */
  function ScenarioPrefix(t: Content, c: Category, d: Difficulty, seed: nat): (r: string)
    requires |t.environments(d)| > 0 && |t.complications(c)| > 0
  {
    t.environments(d)[seed % |t.environments(d)|] + " " + t.complications(c)[seed % |t.complications(c)|]
  }

  /** The prefix is some environment of the difficulty, a space, and some
      complication of the category, and it repeats when the seed advances by
      both table lengths. */
  lemma {:induction false} ScenarioPrefixChoice(t: Content, c: Category, d: Difficulty, seed: nat)
    requires |t.environments(d)| > 0 && |t.complications(c)| > 0
    ensures exists e, k :: e in t.environments(d) && k in t.complications(c) && ScenarioPrefix(t, c, d, seed) == e + " " + k
    ensures ScenarioPrefix(t, c, d, seed + |t.environments(d)| * |t.complications(c)|) == ScenarioPrefix(t, c, d, seed)
  {
    var ne := |t.environments(d)|;
    var nc := |t.complications(c)|;
    var e := t.environments(d)[seed % ne];
    var k := t.complications(c)[seed % nc];
    assert e in t.environments(d) && k in t.complications(c);
    ModAddMultiple(seed, nc, ne);
    ModAddMultiple(seed, ne, nc);
    assert seed + ne * nc == seed + nc * ne;
  }

  /** Adding a multiple of n does not change the remainder. */
  lemma {:induction false} ModAddMultiple(x: nat, q: nat, n: nat)
    requires n > 0
    ensures (x + q * n) % n == x % n
  {
    var p := x / n;
    assert x == p * n + x % n;
    assert (p + q) * n == p * n + q * n;
    ModUnique(x + q * n, p + q, x % n, n);
  }

  /** The remainder is the only r < n with a == q * n + r. */
  lemma {:induction false} ModUnique(a: nat, q: nat, r: nat, n: nat)
    requires n > 0 && r < n && a == q * n + r
    ensures a % n == r
  {
    var q' := a / n;
    var r' := a % n;
    assert a == q' * n + r';
    assert (q' - q) * n == q' * n - q * n;
    MultipleBounds(q' - q, n);
  }

  /** A non-zero multiple of n is at least n in size. */
  lemma {:induction false} MultipleBounds(k: int, n: int)
    requires n > 0
    ensures k >= 1 ==> k * n >= n
    ensures k <= -1 ==> k * n <= -n
  {
    if k >= 1 {
      assert k * n == (k - 1) * n + n;
      assert (k - 1) * n >= 0;
    } else if k <= -1 {
      assert k * n == (k + 1) * n - n;
      assert (k + 1) * n <= 0;
    }
  }

  /** The scenario, the prompt without its trailing question marks, one '?',
      then the decision prompt. */
  function QuestionText(prefix: string, prompt: string, decision: string): string
  {
    prefix + " " + StripTrailingQuestionMarks(prompt) + "? " + decision
  }

  /** The question text is made of its four parts in order, the prompt keeps
      everything but a trailing run of '?', and exactly one '?' follows it. */
  lemma {:induction false} QuestionTextShape(prefix: string, prompt: string, decision: string)
    ensures var body := StripTrailingQuestionMarks(prompt);
      var r := QuestionText(prefix, prompt, decision);
      var k := |prefix| + 1 + |body|;
      && |r| == k + 2 + |decision|
      && r[..|prefix|] == prefix && r[|prefix|] == ' '
      && r[|prefix| + 1..k] == body && prompt == body + prompt[|body|..]
      && (forall i :: |body| <= i < |prompt| ==> prompt[i] == '?')
      && r[k] == '?' && (body != [] ==> r[k - 1] != '?')
      && r[k + 1] == ' ' && r[k + 2..] == decision
  {
    var body := StripTrailingQuestionMarks(prompt);
    var r := QuestionText(prefix, prompt, decision);
    var k := |prefix| + 1 + |body|;
    assert r == prefix + [' '] + body + ['?', ' '] + decision;
    assert r[..|prefix|] == prefix;
    assert r[|prefix| + 1..k] == body;
    assert r[k + 2..] == decision;
  }

  /** The fixed sentence the rationale appends to the concept's rule. */
  const RationaleTail: string := " The best answer is the choice that preserves space, follows legal priority, and avoids creating a sudden conflict for others."

  /** `CA-${String(idCounter).padStart(4, '0')}` */
  function FormatId(counter: nat): string
  {
    "CA-" + PadStart(Digits(counter), 4, '0')
  }

  /** Different counters give different ids. */
  lemma {:induction false} FormatIdInjective(m: nat, n: nat)
    requires FormatId(m) == FormatId(n)
    ensures m == n
  {
    assert FormatId(m)[3..] == PadStart(Digits(m), 4, '0');
    assert FormatId(n)[3..] == PadStart(Digits(n), 4, '0');
    PaddedDigitsInjective(m, n, 4);
  }

  function Pow10(k: nat): (p: nat)
    ensures p >= 1
  {
    if k == 0 then 1 else 10 * Pow10(k - 1)
  }

  /** A counter below 10^k has at most k digits. */
  lemma {:induction false} DigitsWidth(n: nat, k: nat)
    requires 1 <= k && n < Pow10(k)
    ensures |Digits(n)| <= k
  {
    if n >= 10 {
      assert n / 10 < Pow10(k - 1);
      DigitsWidth(n / 10, k - 1);
    }
  }

  /** Counters up to 9999 give ids of exactly seven characters: "CA-" and four digits. */
  lemma {:induction false} FormatIdWidth(n: nat)
    requires n < 10000
    ensures |FormatId(n)| == 7 && FormatId(n)[..3] == "CA-"
    ensures forall i :: 3 <= i < 7 ==> '0' <= FormatId(n)[i] <= '9'
  {
    assert Pow10(4) == 10000;
    DigitsWidth(n, 4);
    var p := PadStart(Digits(n), 4, '0');
    assert FormatId(n) == "CA-" + p;
    forall i | 3 <= i < 7 ensures '0' <= FormatId(n)[i] <= '9' {
      assert FormatId(n)[i] == p[i - 3];
      if i - 3 >= |p| - |Digits(n)| {
        assert p[i - 3] == p[|p| - |Digits(n)|..][i - 3 - (|p| - |Digits(n)|)];
      }
    }
  }

  /** One generated record. A choice is None where the script's base list was
      shorter than four and order.map read undefined. */
  datatype Generated = Generated(
    id: string,
    question: string,
    choices: seq<Option<string>>,
    answerIndex: int,
    category: Category,
    difficulty: Difficulty,
    rationale: string,
    handbookRef: string)

  /** What the loop's table lookups need not to throw: every list it indexes
      with `% length` is non-empty. */
  predicate TablesNonEmpty(t: Content)
  {
    && (forall c: Category :: |t.categories(c).concepts| > 0)
    && (forall c: Category, k :: 0 <= k < |t.categories(c).concepts| ==> |t.categories(c).concepts[k].prompts| > 0)
    && (forall d: Difficulty :: |t.environments(d)| > 0 && |t.decisionPrompts(d)| > 0)
    && (forall c: Category :: |t.complications(c)| > 0)
  }

  function ConceptAt(t: Content, c: Category, variant: nat): Concept
    requires TablesNonEmpty(t)
  {
    var concepts := t.categories(c).concepts;
    concepts[variant % |concepts|]
  }

  /** The object literal the loop body pushes, given the choices and answer index buildChoices returned. */
  function Record(t: Content, c: Category, variant: nat, counter: nat, choices: seq<Option<string>>, answerIndex: int): Generated
    requires TablesNonEmpty(t)
  {
    var d := DifficultyByVariant(variant);
    var concept := ConceptAt(t, c, variant);
    var prompts := concept.prompts;
    var decisions := t.decisionPrompts(d);
    var prefix := ScenarioPrefix(t, c, d, variant + |prompts|);
    Generated(FormatId(counter), QuestionText(prefix, prompts[variant % |prompts|], decisions[variant % |decisions|]),
      choices, answerIndex, c, d, concept.rule + RationaleTail, t.categories(c).ref)
  }

  /** The seed buildChoices is called with: the variant plus the length of the category's name. */
  function ChoiceSeed(c: Category, variant: nat): nat
  {
    variant + |CategoryName(c)|
  }

  /** The record the loop body pushes for one category, variant and counter value. */
  function MakeQuestion(t: Content, c: Category, variant: nat, counter: nat): Generated
    requires TablesNonEmpty(t)
  {
    var concept := ConceptAt(t, c, variant);
    var choices := ChoicesFor(concept.correct, DistractorsFor(t, c, DifficultyByVariant(variant), concept), ChoiceSeed(c, variant));
    Record(t, c, variant, counter, choices, IndexOf(choices, Some(concept.correct)))
  }

  /** The k-th record pushed: category k / 60 of the list, variant k % 60, counter k + 1. */
  function QuestionAt(t: Content, k: nat): Generated
    requires TablesNonEmpty(t) && k < |Categories| * QuestionsPerCategory
  {
    MakeQuestion(t, Categories[k / QuestionsPerCategory], k % QuestionsPerCategory, k + 1)
  }

  /** The whole generated bank. */
  function Bank(t: Content): (bank: seq<Generated>)
    requires TablesNonEmpty(t)
    ensures |bank| == |Categories| * QuestionsPerCategory
  {
    seq(|Categories| * QuestionsPerCategory, k requires 0 <= k < |Categories| * QuestionsPerCategory => QuestionAt(t, k))
  }

  /** Position ci * 60 + v is category ci's variant v. */
  lemma {:induction false} BlockPosition(ci: nat, v: nat)
    requires v < QuestionsPerCategory
    ensures (ci * QuestionsPerCategory + v) / QuestionsPerCategory == ci
    ensures (ci * QuestionsPerCategory + v) % QuestionsPerCategory == v
  {
  }

  /** The two nested loops: every category in order, 60 variants each,
      pushing one record and advancing the id counter per variant. */
  method GenerateQuestions(t: Content) returns (questions: seq<Generated>)
    requires TablesNonEmpty(t)
    ensures questions == Bank(t)
  {
    questions := [];
    assert Bank(t)[..0] == [];
    var idCounter := 1;
    for ci := 0 to |Categories|
      invariant |questions| == ci * QuestionsPerCategory && idCounter == |questions| + 1
      invariant questions == Bank(t)[..|questions|]
    {
      questions, idCounter := GenerateCategory(t, ci, questions, idCounter);
    }
  }

  /** The inner loop for the category at position ci: its 60 variants. */
  method GenerateCategory(t: Content, ci: nat, questions: seq<Generated>, idCounter: nat) returns (questions': seq<Generated>, idCounter': nat)
    requires TablesNonEmpty(t) && ci < |Categories|
    requires |questions| == ci * QuestionsPerCategory && idCounter == |questions| + 1
    requires questions == Bank(t)[..|questions|]
    ensures |questions'| == (ci + 1) * QuestionsPerCategory && idCounter' == |questions'| + 1
    ensures questions' == Bank(t)[..|questions'|]
  {
    var category := Categories[ci];
    questions', idCounter' := questions, idCounter;
    for variant := 0 to QuestionsPerCategory
      invariant |questions'| == ci * QuestionsPerCategory + variant && idCounter' == |questions'| + 1
      invariant questions' == Bank(t)[..|questions'|]
    {
      var q := GenerateOne(t, category, variant, idCounter');
      BlockPosition(ci, variant);
      assert q == Bank(t)[|questions'|];
      PrefixSnoc(Bank(t), |questions'|);
      questions' := questions' + [q];
      idCounter' := idCounter' + 1;
    }
  }

  /** The loop body for one variant: the concept and distractor list it
      looks up, the choices buildChoices shuffles, and the record pushed. */
  method GenerateOne(t: Content, category: Category, variant: nat, idCounter: nat) returns (q: Generated)
    requires TablesNonEmpty(t)
    ensures q == MakeQuestion(t, category, variant, idCounter)
  {
    var concept := ConceptAt(t, category, variant);
    var distractors := DistractorsFor(t, category, DifficultyByVariant(variant), concept);
    var choices, answerIndex := BuildChoices(concept.correct, distractors, ChoiceSeed(category, variant));
    assert answerIndex == IndexOf(choices, Some(concept.correct));
    q := Record(t, category, variant, idCounter, choices, answerIndex);
  }

  /** 10 categories of 60 make 600 records, inside the validator's 400 to 700 window. */
  lemma {:induction false} BankSize(t: Content)
    requires TablesNonEmpty(t)
    ensures |Bank(t)| == 600
    ensures Validator.SizeErrors(|Bank(t)|) == []
  {
    CategoriesEnumerated();
  }

  /** The k-th record carries id number k + 1, so the ids count up from CA-0001
      and no two records share one. */
  lemma {:induction false} BankIds(t: Content)
    requires TablesNonEmpty(t)
    ensures forall k :: 0 <= k < |Bank(t)| ==> Bank(t)[k].id == FormatId(k + 1)
    ensures forall i, j :: 0 <= i < j < |Bank(t)| ==> Bank(t)[i].id != Bank(t)[j].id
  {
    forall k | 0 <= k < |Bank(t)| ensures Bank(t)[k].id == FormatId(k + 1) {
      BankEntry(t, k);
    }
    forall i, j | 0 <= i < j < |Bank(t)| ensures Bank(t)[i].id != Bank(t)[j].id {
      BankEntry(t, i);
      BankEntry(t, j);
      if Bank(t)[i].id == Bank(t)[j].id {
        FormatIdInjective(i + 1, j + 1);
      }
    }
  }

  /** Record k carries id number k + 1, belongs to category k / 60 of the
      list and has the difficulty of variant k % 60. */
  lemma {:induction false} BankEntry(t: Content, k: nat)
    requires TablesNonEmpty(t) && k < |Bank(t)|
    ensures Bank(t)[k].id == FormatId(k + 1)
    ensures Bank(t)[k].category == Categories[k / QuestionsPerCategory]
    ensures Bank(t)[k].difficulty == DifficultyByVariant(k % QuestionsPerCategory)
  {
    assert Bank(t)[k] == QuestionAt(t, k);
  }

  /** The records of the category at position ci are exactly the 60 positions of its block. */
  lemma {:induction false} CategoryBlock(t: Content, ci: nat, k: nat)
    requires TablesNonEmpty(t) && ci < |Categories| && k < |Bank(t)|
    ensures Bank(t)[k].category == Categories[ci] <==>
      ci * QuestionsPerCategory <= k < (ci + 1) * QuestionsPerCategory
  {
    CategoriesEnumerated();
    BankEntry(t, k);
    var cj := k / QuestionsPerCategory;
    assert k == cj * QuestionsPerCategory + k % QuestionsPerCategory;
    if ci * QuestionsPerCategory <= k < (ci + 1) * QuestionsPerCategory {
      BlockPosition(ci, k - ci * QuestionsPerCategory);
      assert cj == ci;
    } else {
      assert cj != ci;
      assert Categories[cj] != Categories[ci];
    }
  }

  /** How many records of s have difficulty d. */
  function CountLevel(s: seq<Generated>, d: Difficulty): (n: nat)
    ensures n <= |s|
  {
    if s == [] then 0 else CountLevel(s[..|s| - 1], d) + (if s[|s| - 1].difficulty == d then 1 else 0)
  }

  /** Records that follow the variant pattern have the variant counts. */
  lemma {:induction false} CountLevelByVariant(s: seq<Generated>, d: Difficulty)
    requires forall v :: 0 <= v < |s| ==> s[v].difficulty == DifficultyByVariant(v)
    ensures CountLevel(s, d) == LevelCount(|s|, d)
  {
    if s != [] {
      var init := s[..|s| - 1];
      forall v | 0 <= v < |init| ensures init[v].difficulty == DifficultyByVariant(v) {
        assert init[v] == s[v];
      }
      CountLevelByVariant(init, d);
      assert s[|s| - 1].difficulty == DifficultyByVariant(|s| - 1);
    }
  }

  /** Variant v of the block of the category at position ci has the variant's difficulty. */
  lemma {:induction false} BlockEntry(t: Content, ci: nat, v: nat)
    requires TablesNonEmpty(t) && ci < |Categories| && v < QuestionsPerCategory
    ensures Bank(t)[ci * QuestionsPerCategory..(ci + 1) * QuestionsPerCategory][v].difficulty == DifficultyByVariant(v)
  {
    var k := ci * QuestionsPerCategory + v;
    BlockPosition(ci, v);
    assert k < (ci + 1) * QuestionsPerCategory <= |Bank(t)|;
    BankEntry(t, k);
    SliceIndex(Bank(t), ci * QuestionsPerCategory, (ci + 1) * QuestionsPerCategory, v);
  }

  /** Each category's block holds 15 easy, 30 medium and 15 hard records. */
  lemma {:induction false} BlockDifficulties(t: Content, ci: nat)
    requires TablesNonEmpty(t) && ci < |Categories|
    ensures var block := Bank(t)[ci * QuestionsPerCategory..(ci + 1) * QuestionsPerCategory];
      CountLevel(block, Easy) == 15 && CountLevel(block, Medium) == 30 && CountLevel(block, Hard) == 15
  {
    var block := Bank(t)[ci * QuestionsPerCategory..(ci + 1) * QuestionsPerCategory];
    forall v | 0 <= v < |block| ensures block[v].difficulty == DifficultyByVariant(v) {
      BlockEntry(t, ci, v);
    }
    CountLevelByVariant(block, Easy);
    CountLevelByVariant(block, Medium);
    CountLevelByVariant(block, Hard);
    VariantSplit();
  }

  /** With tables that offer enough distractors, every record has four
      distinct filled choices and its answerIndex points at the concept's
      correct answer, the one position holding it. */
  lemma {:induction false} BankAnswers(t: Content, k: nat)
    requires ContentOk(t) && k < |Bank(t)|
    ensures var g := Bank(t)[k];
      var correct := ConceptAt(t, g.category, k % QuestionsPerCategory).correct;
      && |g.choices| == 4 && (forall i :: 0 <= i < 4 ==> g.choices[i].Some?) && Distinct(g.choices)
      && 0 <= g.answerIndex < 4 && g.choices[g.answerIndex] == Some(correct)
      && (forall i :: 0 <= i < 4 && g.choices[i] == Some(correct) ==> i == g.answerIndex)
  {
    var c := Categories[k / QuestionsPerCategory];
    var v := k % QuestionsPerCategory;
    var d := DifficultyByVariant(v);
    var concept := ConceptAt(t, c, v);
    var distractors := DistractorsFor(t, c, d, concept);
    assert Bank(t)[k] == QuestionAt(t, k);
    assert |Eligible(concept.correct, distractors)| >= 3;
    ChoicesProperties(concept.correct, distractors, ChoiceSeed(c, v));
  }
}
