/** The attempt workflow of src/App.tsx: the session state the component
    keeps, the handlers that change it (launching, restoring, answering,
    advancing, picking a difficulty or the confidence ramp), and the pure
    label and breathing-phase helpers the screens use. */
module App {
  import opened Types
  import opened Seqs
  import opened Text
  import Sampler
  import Builder
  import Scorer

  /** categoryLabel: a space before every capital letter, then trimmed ('RightOfWay' reads 'Right Of Way'). */
  function CategoryLabel(c: Category): string
  {
    Trim(SpaceBeforeCapitals(CategoryName(c)))
  }

  /** In a string without white space the only white space after the
      capitals are spaced out is the inserted spaces. */
  lemma {:induction false} InsertedSpacesOnly(s: string)
    requires forall i :: 0 <= i < |s| ==> !IsSpace(s[i])
    ensures forall i :: 0 <= i < |SpaceBeforeCapitals(s)| && IsSpace(SpaceBeforeCapitals(s)[i]) ==> SpaceBeforeCapitals(s)[i] == ' '
  {
    if s != [] {
      var head := if IsUpper(s[0]) then [' ', s[0]] else [s[0]];
      var tail := SpaceBeforeCapitals(s[1..]);
      InsertedSpacesOnly(s[1..]);
      var x := SpaceBeforeCapitals(s);
      assert x == head + tail;
      forall i | 0 <= i < |x| && IsSpace(x[i]) ensures x[i] == ' ' {
        if i >= |head| {
          assert x[i] == tail[i - |head|];
        } else {
          assert x[i] == head[i];
        }
      }
    }
  }

  lemma {:induction false} SpacesVanish(z: string)
    requires forall i :: 0 <= i < |z| ==> z[i] == ' '
    ensures WithoutSpaces(z) == []
  {
    if z != [] {
      SpacesVanish(z[1..]);
    }
  }

  /** When the only white space in x is ' ', trimming removes nothing but spaces. */
  lemma {:induction false} WithoutSpacesOfTrim(x: string)
    requires forall i :: 0 <= i < |x| && IsSpace(x[i]) ==> x[i] == ' '
    ensures WithoutSpaces(Trim(x)) == WithoutSpaces(x)
  {
    var r := Trim(x);
    var a, b := TrimIsSlice(x);
    var pre, post := x[..a], x[b..];
    forall i | 0 <= i < |pre| ensures pre[i] == ' ' {
      assert pre[i] == x[i] && IsSpace(x[i]);
    }
    forall i | 0 <= i < |post| ensures post[i] == ' ' {
      assert post[i] == x[b + i] && IsSpace(x[b + i]);
    }
    SpacesVanish(pre);
    SpacesVanish(post);
    ThreeParts(x, a, b);
    WithoutSpacesConcat(pre + r, post);
    WithoutSpacesConcat(pre, r);
    assert WithoutSpaces(x) == [] + WithoutSpaces(r) + [];
    assert [] + WithoutSpaces(r) + [] == WithoutSpaces(r);
  }

  /** Trimming after the spacing removes only inserted spaces: taking every
      space out of the label gives back the original string. */
  lemma {:induction false} LabelInverse(s: string)
    requires forall i :: 0 <= i < |s| ==> !IsSpace(s[i])
    ensures WithoutSpaces(Trim(SpaceBeforeCapitals(s))) == s
  {
    var x := SpaceBeforeCapitals(s);
    InsertedSpacesOnly(s);
    WithoutSpacesOfTrim(x);
    SpaceBeforeCapitalsInverse(s);
  }

  predicate IsLetter(c: char)
  {
    'A' <= c <= 'Z' || 'a' <= c <= 'z'
  }

  /** The category names are made of letters only, so they hold no white space. */
  lemma {:induction false} NamesHaveNoSpaces(c: Category)
    ensures forall i :: 0 <= i < |CategoryName(c)| ==> !IsSpace(CategoryName(c)[i])
  {
    NamesAreLetters(c);
    var name := CategoryName(c);
    forall i | 0 <= i < |name| ensures !IsSpace(name[i]) {
      assert name[i] in name;
    }
  }

  lemma {:induction false} NamesAreLetters(c: Category)
    ensures forall x :: x in CategoryName(c) ==> IsLetter(x)
  {
    if c.RightOfWay? || c.SignsSignalsMarkings? || c.SpeedAndFollowingDistance? || c.LaneUseAndTurns? || c.Parking? {
      FirstNamesAreLetters(c);
    } else {
      LastNamesAreLetters(c);
    }
  }

  lemma {:induction false} FirstNamesAreLetters(c: Category)
    requires c.RightOfWay? || c.SignsSignalsMarkings? || c.SpeedAndFollowingDistance? || c.LaneUseAndTurns? || c.Parking?
    ensures forall x :: x in CategoryName(c) ==> IsLetter(x)
  {
    match c
    case RightOfWay =>
    case SignsSignalsMarkings =>
    case SpeedAndFollowingDistance =>
    case LaneUseAndTurns =>
    case Parking =>
  }

  lemma {:induction false} LastNamesAreLetters(c: Category)
    requires !(c.RightOfWay? || c.SignsSignalsMarkings? || c.SpeedAndFollowingDistance? || c.LaneUseAndTurns? || c.Parking?)
    ensures forall x :: x in CategoryName(c) ==> IsLetter(x)
  {
    match c
    case FreewayDriving =>
    case SharingTheRoad =>
    case DistractedImpairedDriving =>
    case HazardsAndDefensiveDriving =>
    case LicensingRulesAndSafety =>
  }

  /** So a label gives back its category: removing the spaces yields the
      name, and distinct categories have distinct labels. */
  lemma {:induction false} CategoryLabelInverse(c: Category, d: Category)
    ensures WithoutSpaces(CategoryLabel(c)) == CategoryName(c)
    ensures CategoryLabel(c) == CategoryLabel(d) ==> c == d
  {
    NamesHaveNoSpaces(c);
    NamesHaveNoSpaces(d);
    LabelInverse(CategoryName(c));
    LabelInverse(CategoryName(d));
    CategoryNameInjective(c, d);
  }

  /** difficultyLabel: "Mix", or the level's name with its first letter in upper case. */
  function DifficultyLabel(selected: SelectedDifficulty): (text: string)
    ensures selected == Mix ==> text == "Mix"
    ensures selected.Pinned? ==> var name := DifficultyName(selected.level);
      |text| == |name| && text[1..] == name[1..] && IsUpper(text[0])
      && text[0] as int - name[0] as int == 'A' as int - 'a' as int
  {
    match selected
    case Mix => "Mix"
    case Pinned(d) =>
      var name := DifficultyName(d);
      [UpperAscii(name[0])] + name[1..]
  }

  /** The four selections read "Easy", "Medium", "Hard" and "Mix", all different. */
  lemma {:induction false} DifficultyLabels()
    ensures DifficultyLabel(Pinned(Easy)) == "Easy"
    ensures DifficultyLabel(Pinned(Medium)) == "Medium"
    ensures DifficultyLabel(Pinned(Hard)) == "Hard"
    ensures forall a: SelectedDifficulty, b: SelectedDifficulty :: DifficultyLabel(a) == DifficultyLabel(b) ==> a == b
  {
    assert DifficultyLabel(Pinned(Easy)) == "Easy";
    assert DifficultyLabel(Pinned(Medium)) == "Medium";
    assert DifficultyLabel(Pinned(Hard)) == "Hard";
  }

  datatype Phase = Inhale | Hold | Exhale

  /** JavaScript's %, which truncates toward zero: the remainder takes the sign of a. */
  function JsRem(a: int, n: nat): (r: int)
    requires n > 0
    ensures a >= 0 ==> r == a % n
    ensures a < 0 ==> -(n as int) < r <= 0
  {
    if a >= 0 then a % n else -((-a) % n)
  }

  /** breathingPhase: the seconds elapsed since the 30-second break began,
      taken modulo 14; 4 seconds in, 4 held, 6 out. */
  function BreathingPhase(secondsLeft: int): (p: Phase)
    ensures secondsLeft <= 30 ==> var cycle := (30 - secondsLeft) % 14;
      (p == Inhale <==> cycle < 4) && (p == Hold <==> 4 <= cycle < 8) && (p == Exhale <==> 8 <= cycle)
    ensures secondsLeft > 30 ==> p == Inhale
  {
    var cycle := JsRem(30 - secondsLeft, 14);
    if cycle < 4 then Inhale else if cycle < 8 then Hold else Exhale
  }

  /** The phases repeat every 14 seconds of the countdown. */
  lemma {:induction false} BreathingPeriod(secondsLeft: int)
    requires secondsLeft + 14 <= 30
    ensures BreathingPhase(secondsLeft) == BreathingPhase(secondsLeft + 14)
  {
    var e := 30 - secondsLeft;
    assert e % 14 == (e - 14) % 14;
  }

  datatype Stage = Start | Testing | Finished

  /** AttemptState: what one attempt was launched with and its questions. */
  datatype Attempt = Attempt(
    mode: Mode,
    confidenceMode: bool,
    selectedDifficulty: SelectedDifficulty,
    questions: seq<Question>,
    totalQuestions: nat,
    categoryDrill: Option<Category>)

  /** The attempt as saved: the difficulty or the confidence flag may be absent
      (a save from before those fields existed). */
  datatype SavedAttempt = SavedAttempt(
    mode: Mode,
    confidenceMode: Option<bool>,
    selectedDifficulty: Option<SelectedDifficulty>,
    questions: seq<Question>,
    totalQuestions: nat,
    categoryDrill: Option<Category>)

  datatype PersistedState = PersistedState(stage: Stage, attempt: Option<SavedAttempt>, answers: seq<AnswerRecord>, currentIndex: int)

  /** What reading the saved state gives: nothing stored, text that does not parse, or a parsed state. */
  datatype Stored = NothingStored | Unparsable | Parsed(state: PersistedState)

  const RestoreFailedMessage: string := "Saved attempt could not be restored. Start a new test."

  /** The normalisation restoreAttempt applies: a missing difficulty becomes
      mix, and the confidence flag survives only under mix. */
  function Normalized(saved: SavedAttempt): (a: Attempt)
    ensures a.selectedDifficulty == (if saved.selectedDifficulty.Some? then saved.selectedDifficulty.value else Mix)
    ensures a.confidenceMode <==> saved.confidenceMode == Some(true) && a.selectedDifficulty == Mix
    ensures a.mode == saved.mode && a.questions == saved.questions
    ensures a.totalQuestions == saved.totalQuestions && a.categoryDrill == saved.categoryDrill
  {
    var difficulty := if saved.selectedDifficulty.Some? then saved.selectedDifficulty.value else Mix;
    var confidence := saved.confidenceMode == Some(true) && difficulty.Mix?;
    Attempt(saved.mode, confidence, difficulty, saved.questions, saved.totalQuestions, saved.categoryDrill)
  }

  /** The attempt as launchAttempt builds it and the persistence effect saves it, with both fields present. */
  function Saved(a: Attempt): SavedAttempt
  {
    SavedAttempt(a.mode, Some(a.confidenceMode), Some(a.selectedDifficulty), a.questions, a.totalQuestions, a.categoryDrill)
  }

  /** Saving an attempt that keeps the confidence rule and restoring it gives
      the same attempt back; one that breaks the rule comes back with the
      ramp switched off and nothing else changed. */
  lemma {:induction false} RestoreRoundTrip(a: Attempt)
    ensures (a.confidenceMode ==> a.selectedDifficulty == Mix) ==> Normalized(Saved(a)) == a
    ensures Normalized(Saved(a)) == a.(confidenceMode := a.confidenceMode && a.selectedDifficulty == Mix)
  {
  }

  /** answers.find(a => a.questionId === id): the first record for id, if any. */
  function FindAnswer(answers: seq<AnswerRecord>, id: string): (r: Option<AnswerRecord>)
    ensures r.None? <==> forall k :: 0 <= k < |answers| ==> answers[k].questionId != id
    ensures r.Some? ==> r.value in answers && r.value.questionId == id
    ensures r.Some? ==>
      exists k :: 0 <= k < |answers| && answers[k] == r.value && forall j :: 0 <= j < k ==> answers[j].questionId != id
  {
    var ids := AnswerIds(answers);
    if id in ids then
      var k := FirstIndex(ids, id);
      Some(answers[k])
    else None
  }

  /** A category drill asks for 10 questions, any other attempt for 40. */
  function DrillSize(category: Option<Category>): nat
  {
    if category.Some? then 10 else 40
  }

  /** The buildTest call launchAttempt makes, with the size of the attempt it
      asks for: it succeeds exactly when the filtered pool can supply the
      attempt, and a success holds that many questions from the pool, in
      ramp order when the ramp applies. */
  method RequestQuestions(bank: seq<Question>, confidenceMode: bool, selected: SelectedDifficulty,
                          category: Option<Category>, rng: (nat, nat) -> nat, cursor: nat)
    returns (built: Builder.BuildResult, next: nat)
    requires Sampler.IndexSource(rng)
    ensures built.Failed? ==> built.error == Builder.InsufficientPoolMessage
    ensures built.Built? ==> built.effectiveConfidenceMode == Builder.EffectiveConfidence(confidenceMode, selected)
    ensures built.Built? ==> |built.questions| == DrillSize(category)
    ensures var total := DrillSize(category);
      var pool := Builder.CategoryFiltered(bank, category);
      var ramp := Builder.EffectiveConfidence(confidenceMode, selected);
      && (built.Built? <==> if ramp then Builder.BucketsSuffice(pool, Builder.RampFor(total))
            else |Builder.DifficultyFiltered(pool, selected)| >= total)
      && (built.Built? ==> forall q :: q in built.questions ==>
            (q in bank && Builder.MatchesCategory(q, category) && Builder.MatchesDifficulty(q, selected)))
      && (built.Built? && ramp ==> forall i :: 0 <= i < total ==>
            built.questions[i].difficulty == Builder.BlockAt(Builder.RampFor(total), i))
    ensures built.Built? ==>
      multiset(built.questions) <= multiset(Builder.DifficultyFiltered(Builder.CategoryFiltered(bank, category), selected))
    ensures !Builder.EffectiveConfidence(confidenceMode, selected) && built.Built? ==>
      var pool := Builder.DifficultyFiltered(Builder.CategoryFiltered(bank, category), selected);
      built.questions == Sampler.Shuffled(pool, rng, cursor)[..DrillSize(category)]
  {
    built, next := Builder.BuildTest(bank, DrillSize(category), confidenceMode, selected, category, rng, cursor);
  }

  /** The state App keeps in its useState hooks. */
  class Session {
    var stage: Stage
    var mode: Mode
    var selectedDifficulty: SelectedDifficulty
    var confidenceMode: bool
    var attempt: Option<Attempt>
    var answers: seq<AnswerRecord>
    var currentIndex: int
    var showReason: bool
    var showExamReasonsAfterFinish: bool
    var hasSavedAttempt: bool
    var attemptError: Option<string>

    /** The initial values of the hooks. */
    constructor ()
      ensures stage == Start && mode == Practice && selectedDifficulty == Mix && !confidenceMode
      ensures attempt == None && answers == [] && currentIndex == 0
      ensures !showReason && !showExamReasonsAfterFinish && !hasSavedAttempt && attemptError == None
    {
      stage := Start;
      mode := Practice;
      selectedDifficulty := Mix;
      confidenceMode := false;
      attempt := None;
      answers := [];
      currentIndex := 0;
      showReason := false;
      showExamReasonsAfterFinish := false;
      hasSavedAttempt := false;
      attemptError := None;
    }

    /** attempt?.questions[currentIndex]: undefined without an attempt or with the index out of range. */
    function CurrentQuestion(): (q: Option<Question>)
      reads this
      ensures q.Some? <==> attempt.Some? && 0 <= currentIndex < |attempt.value.questions|
      ensures q.Some? ==> q.value in attempt.value.questions
    {
      if attempt.Some? && 0 <= currentIndex < |attempt.value.questions| then
        Some(attempt.value.questions[currentIndex])
      else None
    }

    /** The confidence ramp can be on only while the difficulty is mix. */
    predicate ConfidenceRuleHolds()
      reads this
    {
      confidenceMode ==> selectedDifficulty == Mix
    }

    /** With an attempt, the index points at one of its questions. */
    predicate IndexInRange()
      reads this
    {
      attempt.Some? ==> 0 <= currentIndex < |attempt.value.questions|
    }

    /** Each question of the attempt has at most one answer, and every answer
        belongs to a question of the attempt: the assumption scoring rests on. */
    predicate OneAnswerPerQuestion()
      reads this
    {
      attempt.Some? && Distinct(AnswerIds(answers))
      && forall a :: a in answers ==> exists q :: q in attempt.value.questions && q.id == a.questionId
    }

    /** While the invariant holds the score never counts more wrong answers than questions, nor fewer than none. */
    lemma {:induction false} ScoreIsSound()
      requires OneAnswerPerQuestion()
      ensures 0 <= Scorer.ScoreAttempt(attempt.value.questions, answers).wrong <= |attempt.value.questions|
    {
      Scorer.WrongNeverNegative(attempt.value.questions, answers);
    }

    /** answerQuestion: nothing happens without a current question or when it
        already has an answer; otherwise one record is appended, correct
        exactly when the choice is the answer index. */
    method AnswerQuestion(choiceIndex: int)
      modifies this`answers
      ensures var q := old(CurrentQuestion());
        if q.None? || FindAnswer(old(answers), q.value.id).Some? then answers == old(answers)
        else answers == old(answers) + [AnswerRecord(q.value.id, choiceIndex, choiceIndex == q.value.answerIndex)]
      ensures old(OneAnswerPerQuestion()) ==> OneAnswerPerQuestion()
    {
      var currentQuestion := CurrentQuestion();
      if currentQuestion.None? {
        return;
      }
      var q := currentQuestion.value;
      var currentAnswer := FindAnswer(answers, q.id);
      if currentAnswer.Some? {
        return;
      }
      var correct := choiceIndex == q.answerIndex;
      ghost var before := answers;
      answers := answers + [AnswerRecord(q.id, choiceIndex, correct)];
      assert AnswerIds(answers) == AnswerIds(before) + [q.id];
    }

    /** goNext: at or past the last question the stage becomes finished and
        the index stays; otherwise the index moves on by one and the
        explanation is hidden. */
    method GoNext()
      modifies this`stage, this`currentIndex, this`showReason
      ensures attempt.None? ==> stage == old(stage) && currentIndex == old(currentIndex) && showReason == old(showReason)
      ensures attempt.Some? && old(currentIndex) >= |attempt.value.questions| - 1 ==>
        stage == Finished && currentIndex == old(currentIndex) && showReason == old(showReason)
      ensures attempt.Some? && old(currentIndex) < |attempt.value.questions| - 1 ==>
        stage == old(stage) && currentIndex == old(currentIndex) + 1 && !showReason
      ensures old(OneAnswerPerQuestion()) ==> OneAnswerPerQuestion()
      ensures old(IndexInRange()) ==> IndexInRange()
    {
      if attempt.None? {
        return;
      }
      var isLast := currentIndex >= |attempt.value.questions| - 1;
      if isLast {
        stage := Finished;
        return;
      }
      currentIndex := currentIndex + 1;
      showReason := false;
    }

    /** A difficulty button: the choice is stored, then the effect that
        switches confidence mode off under a fixed difficulty runs. */
    method SelectDifficulty(option: SelectedDifficulty)
      modifies this`selectedDifficulty, this`confidenceMode
      ensures selectedDifficulty == option
      ensures confidenceMode == (old(confidenceMode) && option == Mix)
      ensures ConfidenceRuleHolds()
    {
      selectedDifficulty := option;
      EnforceConfidenceRule();
    }

    /** The effect: a fixed difficulty forces confidence mode off. */
    method EnforceConfidenceRule()
      modifies this`confidenceMode
      ensures confidenceMode == (old(confidenceMode) && selectedDifficulty == Mix)
      ensures ConfidenceRuleHolds()
    {
      var confidenceDisabled := selectedDifficulty != Mix;
      if confidenceDisabled && confidenceMode {
        confidenceMode := false;
      }
    }

    /** The confidence checkbox: disabled under a fixed difficulty, so a click
        changes the flag only under mix. */
    method SetConfidence(checked: bool)
      modifies this`confidenceMode
      ensures confidenceMode == if selectedDifficulty == Mix then checked else old(confidenceMode)
      ensures old(ConfidenceRuleHolds()) ==> ConfidenceRuleHolds()
    {
      var confidenceDisabled := selectedDifficulty != Mix;
      if !confidenceDisabled {
        confidenceMode := checked;
      }
    }

    /** launchAttempt: the questions are requested, then a failed build
        only records its message, and a successful one starts the attempt
        from its first question with no answers and the confidence flag the
        build actually applied. The random draws come from rng from
        position cursor on; next is the first unused one. */
    method LaunchAttempt(nextMode: Mode, category: Option<Category>, bank: seq<Question>, rng: (nat, nat) -> nat, cursor: nat)
      returns (built: Builder.BuildResult, next: nat)
      requires Sampler.IndexSource(rng)
      modifies this
      ensures built.Failed? ==>
        && attemptError == Some(Builder.InsufficientPoolMessage)
        && stage == old(stage) && mode == old(mode) && confidenceMode == old(confidenceMode)
        && attempt == old(attempt) && answers == old(answers) && currentIndex == old(currentIndex)
        && showReason == old(showReason) && showExamReasonsAfterFinish == old(showExamReasonsAfterFinish)
      ensures built.Built? ==>
        && attempt == Some(Attempt(nextMode, built.effectiveConfidenceMode, old(selectedDifficulty), built.questions,
             DrillSize(category), category))
        && attemptError == None && stage == Testing && mode == nextMode
        && answers == [] && currentIndex == 0 && !showReason && !showExamReasonsAfterFinish
        && confidenceMode == built.effectiveConfidenceMode
      ensures selectedDifficulty == old(selectedDifficulty) && hasSavedAttempt == old(hasSavedAttempt)
      ensures built.Built? ==> confidenceMode == Builder.EffectiveConfidence(old(confidenceMode), old(selectedDifficulty))
      ensures built.Built? ==> |attempt.value.questions| == DrillSize(category)
      ensures old(ConfidenceRuleHolds()) ==> ConfidenceRuleHolds()
      ensures old(OneAnswerPerQuestion()) || built.Built? ==> OneAnswerPerQuestion()
      ensures old(IndexInRange()) || built.Built? ==> IndexInRange()
    {
      built, next := RequestQuestions(bank, confidenceMode, selectedDifficulty, category, rng, cursor);
      ApplyBuild(nextMode, category, built);
    }

    /** The setters launchAttempt runs once the build has returned. */
    method ApplyBuild(nextMode: Mode, category: Option<Category>, built: Builder.BuildResult)
      modifies this
      ensures built.Failed? ==>
        && attemptError == Some(if built.error != "" then built.error else Builder.InsufficientPoolMessage)
        && stage == old(stage) && mode == old(mode) && confidenceMode == old(confidenceMode)
        && attempt == old(attempt) && answers == old(answers) && currentIndex == old(currentIndex)
        && showReason == old(showReason) && showExamReasonsAfterFinish == old(showExamReasonsAfterFinish)
      ensures built.Built? ==>
        && attempt == Some(Attempt(nextMode, built.effectiveConfidenceMode, old(selectedDifficulty), built.questions,
             DrillSize(category), category))
        && attemptError == None && stage == Testing && mode == nextMode
        && answers == [] && currentIndex == 0 && !showReason && !showExamReasonsAfterFinish
        && confidenceMode == built.effectiveConfidenceMode
      ensures selectedDifficulty == old(selectedDifficulty) && hasSavedAttempt == old(hasSavedAttempt)
    {
      if built.Failed? {
        attemptError := Some(if built.error != "" then built.error else Builder.InsufficientPoolMessage);
        return;
      }
      var newAttempt := Attempt(nextMode, built.effectiveConfidenceMode, selectedDifficulty, built.questions, DrillSize(category), category);
      attemptError := None;
      mode := nextMode;
      confidenceMode := built.effectiveConfidenceMode;
      attempt := Some(newAttempt);
      answers := [];
      currentIndex := 0;
      showReason := false;
      showExamReasonsAfterFinish := false;
      stage := Testing;
    }

    /** restoreAttempt: a parsed save in the testing stage with an attempt
        replaces the session's attempt, answers and index, normalised; an
        unparsable save is dropped with a message; anything else changes
        nothing. */
    method RestoreAttempt(raw: Stored)
      modifies this
      ensures raw.NothingStored? || (raw.Parsed? && !(raw.state.stage == Testing && raw.state.attempt.Some?)) ==>
        && stage == old(stage) && mode == old(mode) && selectedDifficulty == old(selectedDifficulty)
        && confidenceMode == old(confidenceMode) && attempt == old(attempt) && answers == old(answers)
        && currentIndex == old(currentIndex) && showReason == old(showReason)
        && hasSavedAttempt == old(hasSavedAttempt) && attemptError == old(attemptError)
      ensures raw.Unparsable? ==>
        && !hasSavedAttempt && attemptError == Some(RestoreFailedMessage)
        && stage == old(stage) && attempt == old(attempt) && answers == old(answers) && currentIndex == old(currentIndex)
        && confidenceMode == old(confidenceMode) && selectedDifficulty == old(selectedDifficulty)
        && mode == old(mode) && showReason == old(showReason)
      ensures raw.Parsed? && raw.state.stage == Testing && raw.state.attempt.Some? ==>
        var a := Normalized(raw.state.attempt.value);
        && attempt == Some(a) && mode == a.mode && selectedDifficulty == a.selectedDifficulty
        && confidenceMode == a.confidenceMode && answers == raw.state.answers
        && currentIndex == raw.state.currentIndex && !showReason && attemptError == None && stage == Testing
        && hasSavedAttempt == old(hasSavedAttempt)
      ensures showExamReasonsAfterFinish == old(showExamReasonsAfterFinish)
      ensures old(ConfidenceRuleHolds()) ==> ConfidenceRuleHolds()
    {
      match raw
      case NothingStored =>
        return;
      case Unparsable =>
        hasSavedAttempt := false;
        attemptError := Some(RestoreFailedMessage);
      case Parsed(parsed) =>
        if parsed.stage == Testing && parsed.attempt.Some? {
          var normalizedAttempt := Normalized(parsed.attempt.value);
          attempt := Some(normalizedAttempt);
          mode := normalizedAttempt.mode;
          selectedDifficulty := normalizedAttempt.selectedDifficulty;
          confidenceMode := normalizedAttempt.confidenceMode;
          answers := parsed.answers;
          currentIndex := parsed.currentIndex;
          showReason := false;
          attemptError := None;
          stage := Testing;
        }
    }
  }
}
