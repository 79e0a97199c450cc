/** The question-bank validator of scripts/validateQuestionBank.mjs: the
    size window, the per-item checks with the set of ids already seen, the
    verdict, and the per-category and per-difficulty counts printed for an
    accepted bank. */
module Validator {
  import opened Types
  import opened Seqs
  import opened Text

  /** A value as JSON.parse produces it. Undefined stands for reading a
      property an object does not have. */
  datatype Value =
    | Undefined
    | Null
    | Bool(b: bool)
    | Num(x: real)
    | Str(s: string)
    | Arr(elems: seq<Value>)
    | Obj(fields: map<Field, Value>)

  /** The properties of an item the validator reads; an object's other
      properties play no part in any check and are not represented. */
  datatype Field = Id | QuestionText | Choices | AnswerIndex | CategoryField | DifficultyField | Rationale | HandbookRef

  /** Property access q[name]: Undefined on a missing property and on a
      primitive (only null and undefined make the access throw; see Crashes). */
  function Get(q: Value, name: Field): Value
  {
    if q.Obj? && name in q.fields then q.fields[name] else Undefined
  }

  /** Values a Set can find again. A Set compares objects and arrays by
      reference, and JSON.parse makes a fresh one for every occurrence, so an
      object or array id never repeats one seen before. */
  predicate Remembered(v: Value)
  {
    !v.Arr? && !v.Obj?
  }

  /** The names in allowedCategories and allowedDifficulty. */
  const AllowedCategories: seq<string> := [
    "RightOfWay", "SignsSignalsMarkings", "SpeedAndFollowingDistance", "LaneUseAndTurns", "Parking",
    "FreewayDriving", "SharingTheRoad", "DistractedImpairedDriving", "HazardsAndDefensiveDriving",
    "LicensingRulesAndSafety"
  ]
  const AllowedDifficulties: seq<string> := ["easy", "medium", "hard"]

  /** Every category's JSON name is allowed. */
  lemma {:induction false} CategoryNamesAllowed(c: Category)
    ensures CategoryName(c) in AllowedCategories
  {
    match c
    case RightOfWay => assert AllowedCategories[0] == CategoryName(c);
    case SignsSignalsMarkings => assert AllowedCategories[1] == CategoryName(c);
    case SpeedAndFollowingDistance => assert AllowedCategories[2] == CategoryName(c);
    case LaneUseAndTurns => assert AllowedCategories[3] == CategoryName(c);
    case Parking => assert AllowedCategories[4] == CategoryName(c);
    case FreewayDriving => assert AllowedCategories[5] == CategoryName(c);
    case SharingTheRoad => assert AllowedCategories[6] == CategoryName(c);
    case DistractedImpairedDriving => assert AllowedCategories[7] == CategoryName(c);
    case HazardsAndDefensiveDriving => assert AllowedCategories[8] == CategoryName(c);
    case LicensingRulesAndSafety => assert AllowedCategories[9] == CategoryName(c);
  }

  /** The allowed list is the category enumeration, name by name. */
  lemma {:induction false} AllowedCategoriesInOrder()
    ensures |AllowedCategories| == |Categories|
    ensures forall k :: 0 <= k < |Categories| ==> AllowedCategories[k] == CategoryName(Categories[k])
  {
  }

  /** The allowed names are exactly the JSON names of the model's enumerations, each listed once. */
  lemma {:induction false} AllowedNamesAreEnumerations()
    ensures forall s :: s in AllowedCategories <==> exists c :: CategoryName(c) == s
    ensures forall s :: s in AllowedDifficulties <==> exists d :: DifficultyName(d) == s
    ensures Distinct(AllowedCategories) && Distinct(AllowedDifficulties)
  {
    AllowedCategoriesInOrder();
    forall s | s in AllowedCategories ensures exists c :: CategoryName(c) == s {
      var k :| 0 <= k < |AllowedCategories| && AllowedCategories[k] == s;
      assert CategoryName(Categories[k]) == s;
    }
    forall c: Category ensures CategoryName(c) in AllowedCategories {
      CategoryNamesAllowed(c);
    }
    forall s | s in AllowedDifficulties ensures exists d :: DifficultyName(d) == s {
      if s == "easy" { assert DifficultyName(Easy) == s; }
      else if s == "medium" { assert DifficultyName(Medium) == s; }
      else { assert DifficultyName(Hard) == s; }
    }
    forall d: Difficulty ensures DifficultyName(d) in AllowedDifficulties {
      match d
      case Easy => assert AllowedDifficulties[0] == DifficultyName(d);
      case Medium => assert AllowedDifficulties[1] == DifficultyName(d);
      case Hard => assert AllowedDifficulties[2] == DifficultyName(d);
    }
    CategoriesEnumerated();
    forall i, j | 0 <= i < j < |AllowedCategories| ensures AllowedCategories[i] != AllowedCategories[j] {
      CategoryNameInjective(Categories[i], Categories[j]);
    }
  }

  /** What one item can be reported for; the values are the ones the message prints. */
  datatype Issue =
    | MissingId
    | DuplicateId(id: Value)
    | QuestionTooShort
    | ChoicesNotFour
    | InvalidChoiceText
    | InvalidAnswerIndex
    | InvalidCategory(category: Value)
    | InvalidDifficulty(difficulty: Value)
    | RationaleTooShort
    | InvalidHandbookRef

  /** One entry of the errors list; items are numbered from 1. */
  datatype Error = NotAnArray | BankSize(found: nat) | ItemError(item: nat, issue: Issue)

  /** Aborted: the script stops with a TypeError before it reports anything.
      Rejected: it prints the errors and exits with status 1.
      Accepted: it prints the total and the two count tables. */
  datatype Outcome =
    | Aborted
    | Rejected(errors: seq<Error>)
    | Accepted(total: nat, byCategory: map<string, nat>, byDifficulty: map<string, nat>)

  /** The item checks, one per line of the loop. */
  predicate IdMissing(q: Value)
  {
    !(Get(q, Id).Str? && Get(q, Id).s != "")
  }

  predicate IdSeen(q: Value, seen: set<Value>)
  {
    Remembered(Get(q, Id)) && Get(q, Id) in seen
  }

  /** typeof v !== 'string' || v.trim().length < min */
  predicate TooShort(v: Value, min: nat)
  {
    !v.Str? || |Trim(v.s)| < min
  }

  predicate ChoicesWrongSize(q: Value)
  {
    !Get(q, Choices).Arr? || |Get(q, Choices).elems| != 4
  }

  /** The elements of an array; the two checks below only run once choices
      is known to be an array (see Crashes). */
  function Elems(v: Value): seq<Value>
  {
    if v.Arr? then v.elems else []
  }

  predicate ChoiceTextInvalid(q: Value)
  {
    !(forall c :: c in Elems(Get(q, Choices)) ==> c.Str? && |Trim(c.s)| > 0)
  }

  /** !Number.isInteger(a) || a < 0 || a >= choices.length */
  predicate AnswerIndexInvalid(q: Value)
  {
    var a := Get(q, AnswerIndex);
    !a.Num? || a.x.Floor as real != a.x || a.x < 0.0 || a.x >= |Elems(Get(q, Choices))| as real
  }

  predicate NotAllowed(v: Value, allowed: seq<string>)
  {
    !(v.Str? && v.s in allowed)
  }

  /** Where the loop throws: reading a property of null, or calling
      q.choices.every when q.choices is not an array. */
  predicate Crashes(q: Value)
  {
    q.Null? || q.Undefined? || !Get(q, Choices).Arr?
  }

  /** The message a check pushes when it fails. */
  function Check(failed: bool, issue: Issue): seq<Issue>
  {
    if failed then [issue] else []
  }

  /** Which of the ten checks of the loop body fail for one item. */
  datatype Findings = Findings(
    missingId: bool, duplicateId: bool, questionTooShort: bool, choicesNotFour: bool, invalidChoiceText: bool,
    invalidAnswerIndex: bool, invalidCategory: bool, invalidDifficulty: bool, rationaleTooShort: bool,
    invalidHandbookRef: bool)

  /** Every check passes. */
  const Passed := Findings(false, false, false, false, false, false, false, false, false, false)

  function FindingsOf(q: Value, seen: set<Value>): Findings
  {
    Findings(
      IdMissing(q), IdSeen(q, seen), TooShort(Get(q, QuestionText), 15), ChoicesWrongSize(q), ChoiceTextInvalid(q),
      AnswerIndexInvalid(q), NotAllowed(Get(q, CategoryField), AllowedCategories),
      NotAllowed(Get(q, DifficultyField), AllowedDifficulties), TooShort(Get(q, Rationale), 30),
      TooShort(Get(q, HandbookRef), 3))
  }

  /** The messages the failed checks push, in the order the checks run; the
      id, category and difficulty are the values the messages print. */
  function Report(f: Findings, id: Value, category: Value, difficulty: Value): seq<Issue>
  {
    Check(f.missingId, MissingId)
    + Check(f.duplicateId, DuplicateId(id))
    + Check(f.questionTooShort, QuestionTooShort)
    + Check(f.choicesNotFour, ChoicesNotFour)
    + Check(f.invalidChoiceText, InvalidChoiceText)
    + Check(f.invalidAnswerIndex, InvalidAnswerIndex)
    + Check(f.invalidCategory, InvalidCategory(category))
    + Check(f.invalidDifficulty, InvalidDifficulty(difficulty))
    + Check(f.rationaleTooShort, RationaleTooShort)
    + Check(f.invalidHandbookRef, InvalidHandbookRef)
  }

  /** The issues found in one item, given the ids seen before it, in the order the checks run. */
  function ItemIssues(q: Value, seen: set<Value>): seq<Issue>
  {
    Report(FindingsOf(q, seen), Get(q, Id), Get(q, CategoryField), Get(q, DifficultyField))
  }

  /** What Report can hold: each message, exactly when its check fails. */
  lemma {:induction false} InReport(f: Findings, id: Value, category: Value, difficulty: Value)
    ensures forall x :: x in Report(f, id, category, difficulty) <==>
      || (f.missingId && x == MissingId) || (f.duplicateId && x == DuplicateId(id))
      || (f.questionTooShort && x == QuestionTooShort) || (f.choicesNotFour && x == ChoicesNotFour)
      || (f.invalidChoiceText && x == InvalidChoiceText) || (f.invalidAnswerIndex && x == InvalidAnswerIndex)
      || (f.invalidCategory && x == InvalidCategory(category)) || (f.invalidDifficulty && x == InvalidDifficulty(difficulty))
      || (f.rationaleTooShort && x == RationaleTooShort) || (f.invalidHandbookRef && x == InvalidHandbookRef)
  {
    forall x ensures x in Report(f, id, category, difficulty) <==>
      || x in Check(f.missingId, MissingId) || x in Check(f.duplicateId, DuplicateId(id))
      || x in Check(f.questionTooShort, QuestionTooShort) || x in Check(f.choicesNotFour, ChoicesNotFour)
      || x in Check(f.invalidChoiceText, InvalidChoiceText) || x in Check(f.invalidAnswerIndex, InvalidAnswerIndex)
      || x in Check(f.invalidCategory, InvalidCategory(category)) || x in Check(f.invalidDifficulty, InvalidDifficulty(difficulty))
      || x in Check(f.rationaleTooShort, RationaleTooShort) || x in Check(f.invalidHandbookRef, InvalidHandbookRef)
    {
    }
    forall b: bool, i: Issue, x: Issue ensures x in Check(b, i) <==> b && x == i {
    }
  }

  /** The messages of the two id checks are pushed exactly when those checks fail. */
  lemma {:induction false} IdMessages(f: Findings, id: Value, category: Value, difficulty: Value)
    ensures MissingId in Report(f, id, category, difficulty) <==> f.missingId
    ensures DuplicateId(id) in Report(f, id, category, difficulty) <==> f.duplicateId
  {
    InReport(f, id, category, difficulty);
  }

  /** The messages of the question text and choice count checks are pushed exactly when those checks fail. */
  lemma {:induction false} QuestionMessages(f: Findings, id: Value, category: Value, difficulty: Value)
    ensures QuestionTooShort in Report(f, id, category, difficulty) <==> f.questionTooShort
    ensures ChoicesNotFour in Report(f, id, category, difficulty) <==> f.choicesNotFour
  {
    InReport(f, id, category, difficulty);
  }

  /** The messages of the choice text and answer index checks are pushed exactly when those checks fail. */
  lemma {:induction false} AnswerMessages(f: Findings, id: Value, category: Value, difficulty: Value)
    ensures InvalidChoiceText in Report(f, id, category, difficulty) <==> f.invalidChoiceText
    ensures InvalidAnswerIndex in Report(f, id, category, difficulty) <==> f.invalidAnswerIndex
  {
    InReport(f, id, category, difficulty);
  }

  /** The messages of the category and difficulty checks are pushed exactly when those checks fail. */
  lemma {:induction false} NameMessages(f: Findings, id: Value, category: Value, difficulty: Value)
    ensures InvalidCategory(category) in Report(f, id, category, difficulty) <==> f.invalidCategory
    ensures InvalidDifficulty(difficulty) in Report(f, id, category, difficulty) <==> f.invalidDifficulty
  {
    InReport(f, id, category, difficulty);
  }

  /** The messages of the rationale and handbook reference checks are pushed exactly when those checks fail. */
  lemma {:induction false} ReferenceMessages(f: Findings, id: Value, category: Value, difficulty: Value)
    ensures RationaleTooShort in Report(f, id, category, difficulty) <==> f.rationaleTooShort
    ensures InvalidHandbookRef in Report(f, id, category, difficulty) <==> f.invalidHandbookRef
  {
    InReport(f, id, category, difficulty);
  }

  /** Nothing is pushed exactly when every check passes. */
  lemma {:induction false} ReportEmptyIff(f: Findings, id: Value, category: Value, difficulty: Value)
    ensures Report(f, id, category, difficulty) == [] <==> f == Passed
  {
    assert |Report(f, id, category, difficulty)| ==
      |Check(f.missingId, MissingId)| + |Check(f.duplicateId, DuplicateId(id))|
      + |Check(f.questionTooShort, QuestionTooShort)| + |Check(f.choicesNotFour, ChoicesNotFour)|
      + |Check(f.invalidChoiceText, InvalidChoiceText)| + |Check(f.invalidAnswerIndex, InvalidAnswerIndex)|
      + |Check(f.invalidCategory, InvalidCategory(category))| + |Check(f.invalidDifficulty, InvalidDifficulty(difficulty))|
      + |Check(f.rationaleTooShort, RationaleTooShort)| + |Check(f.invalidHandbookRef, InvalidHandbookRef)|;
  }

  /** The messages for the issues of item `number`. */
  function Tagged(number: nat, issues: seq<Issue>): (r: seq<Error>)
    ensures |r| == |issues|
    ensures forall k :: 0 <= k < |issues| ==> r[k] == ItemError(number, issues[k])
  {
    seq(|issues|, k requires 0 <= k < |issues| => ItemError(number, issues[k]))
  }

  lemma {:induction false} TaggedMembers(number: nat, issues: seq<Issue>)
    ensures forall e: Error :: e in Tagged(number, issues) <==> e.ItemError? && e.item == number && e.issue in issues
  {
    forall e: Error | e.ItemError? && e.item == number && e.issue in issues ensures e in Tagged(number, issues) {
      var k :| 0 <= k < |issues| && issues[k] == e.issue;
      assert Tagged(number, issues)[k] == e;
    }
  }

  /** The ids added to seenIds by the items of a prefix. */
  function IdsOf(items: seq<Value>): set<Value>
  {
    if items == [] then {} else IdsOf(items[..|items| - 1]) + {Get(items[|items| - 1], Id)}
  }

  /** seenIds holds the id of every item before, and nothing else. */
  lemma {:induction false} IdsOfMembers(items: seq<Value>, v: Value)
    ensures v in IdsOf(items) <==> exists j :: 0 <= j < |items| && Get(items[j], Id) == v
  {
    if items != [] {
      var init := items[..|items| - 1];
      IdsOfMembers(init, v);
      if v in IdsOf(init) {
        var j :| 0 <= j < |init| && Get(init[j], Id) == v;
        assert items[j] == init[j];
      }
      if exists j :: 0 <= j < |items| && Get(items[j], Id) == v {
        var j :| 0 <= j < |items| && Get(items[j], Id) == v;
        if j < |init| {
          assert init[j] == items[j];
        }
      }
    }
  }

  predicate NoCrash(items: seq<Value>)
  {
    forall k :: 0 <= k < |items| ==> !Crashes(items[k])
  }

  /** For every item, f of the item and of the ids of the items before it. */
  function ListsBy(items: seq<Value>, f: (Value, set<Value>) -> seq<Issue>): (r: seq<seq<Issue>>)
    ensures |r| == |items|
  {
    if items == [] then []
    else
      var init := items[..|items| - 1];
      ListsBy(init, f) + [f(items[|items| - 1], IdsOf(init))]
  }

  lemma {:induction false} ListsByAt(items: seq<Value>, f: (Value, set<Value>) -> seq<Issue>, k: nat)
    requires k < |items|
    ensures ListsBy(items, f)[k] == f(items[k], IdsOf(items[..k]))
  {
    var init := items[..|items| - 1];
    if k < |init| {
      ListsByAt(init, f, k);
      assert items[k] == init[k] && items[..k] == init[..k];
    } else {
      assert items[..k] == init;
    }
  }

  /** The issues of every item, each checked against the ids of the items before it. */
  function IssueLists(items: seq<Value>): seq<seq<Issue>>
  {
    ListsBy(items, ItemIssues)
  }

  /** Entry k is the issues of item k against the ids of items 0 to k-1. */
  lemma {:induction false} IssueListsAt(items: seq<Value>, k: nat)
    requires k < |items|
    ensures IssueLists(items)[k] == ItemIssues(items[k], IdsOf(items[..k]))
  {
    ListsByAt(items, ItemIssues, k);
  }

  /** The messages for a list of per-item issues, items numbered from 1. */
  function Numbered(lists: seq<seq<Issue>>): (r: seq<Error>)
    ensures forall e :: e in r ==> e.ItemError? && 1 <= e.item <= |lists|
  {
    if lists == [] then []
    else
      var n := |lists|;
      TaggedMembers(n, lists[n - 1]);
      Numbered(lists[..n - 1]) + Tagged(n, lists[n - 1])
  }

  /** Numbering one more item's issues appends them, tagged with its number. */
  lemma {:induction false} NumberedSnoc(lists: seq<seq<Issue>>, issues: seq<Issue>)
    ensures Numbered(lists + [issues]) == Numbered(lists) + Tagged(|lists| + 1, issues)
  {
    assert (lists + [issues])[..|lists|] == lists;
  }

  /** No message is pushed exactly when no item has an issue. */
  lemma {:induction false} NumberedEmptyIff(lists: seq<seq<Issue>>)
    ensures Numbered(lists) == [] <==> forall k :: 0 <= k < |lists| ==> lists[k] == []
  {
    if lists != [] {
      var init := lists[..|lists| - 1];
      NumberedEmptyIff(init);
      assert forall k :: 0 <= k < |init| ==> init[k] == lists[k];
    }
  }

  /** The messages with number k+1 are exactly the tagged issues of list k. */
  lemma {:induction false} NumberedLocated(lists: seq<seq<Issue>>, k: nat)
    requires k < |lists|
    ensures forall e :: e in Numbered(lists) && e.item == k + 1 <==> e in Tagged(k + 1, lists[k])
  {
    var n := |lists|;
    var init := lists[..n - 1];
    TaggedMembers(n, lists[n - 1]);
    TaggedMembers(k + 1, lists[k]);
    if k < n - 1 {
      NumberedLocated(init, k);
      assert init[k] == lists[k];
    }
  }

  /** The errors the loop pushes for all the items, in order. */
  function BankItemErrors(items: seq<Value>): (r: seq<Error>)
    ensures forall e :: e in r ==> e.ItemError? && 1 <= e.item <= |items|
  {
    Numbered(IssueLists(items))
  }

  function SizeErrors(n: nat): (r: seq<Error>)
  {
    if n < 400 || n > 700 then [BankSize(n)] else []
  }

  /** The per-field tally the reduce calls build: for each value of the field, how many items carry it. */
  function CountsOf(items: seq<Value>, field: Field): (m: map<string, nat>)
    requires forall k :: 0 <= k < |items| ==> Get(items[k], field).Str?
  {
    if items == [] then map[]
    else
      var init := items[..|items| - 1];
      var key := Get(items[|items| - 1], field).s;
      var acc := CountsOf(init, field);
      acc[key := (if key in acc then acc[key] else 0) + 1]
  }

  /** What the script does with the parsed bank. */
  function Verdict(data: Value): Outcome
  {
    if !data.Arr? || !NoCrash(data.elems) then Aborted
    else
      var items := data.elems;
      var errors := SizeErrors(|items|) + BankItemErrors(items);
      if errors != [] then Rejected(errors)
      else
        CleanBankIsWellTyped(items);
        Accepted(|items|, CountsOf(items, CategoryField), CountsOf(items, DifficultyField))
  }

  /** An item has no issue exactly when none of its checks fails. */
  lemma {:induction false} NoIssuesIff(q: Value, seen: set<Value>)
    ensures ItemIssues(q, seen) == [] <==> FindingsOf(q, seen) == Passed
  {
    ReportEmptyIff(FindingsOf(q, seen), Get(q, Id), Get(q, CategoryField), Get(q, DifficultyField));
  }

  /** With no item errors, every category and difficulty is one of the allowed strings. */
  lemma {:induction false} CleanBankIsWellTyped(items: seq<Value>)
    requires BankItemErrors(items) == []
    ensures forall k :: 0 <= k < |items| ==> Get(items[k], CategoryField).Str? && Get(items[k], CategoryField).s in AllowedCategories
    ensures forall k :: 0 <= k < |items| ==> Get(items[k], DifficultyField).Str? && Get(items[k], DifficultyField).s in AllowedDifficulties
  {
    NoItemErrorsIff(items);
    forall k | 0 <= k < |items|
      ensures !NotAllowed(Get(items[k], CategoryField), AllowedCategories)
      ensures !NotAllowed(Get(items[k], DifficultyField), AllowedDifficulties)
    {
      NoIssuesIff(items[k], IdsOf(items[..k]));
      assert FindingsOf(items[k], IdsOf(items[..k])) == Passed;
    }
  }

  /** The loop pushes no error exactly when no item has an issue. */
  lemma {:induction false} NoItemErrorsIff(items: seq<Value>)
    ensures BankItemErrors(items) == [] <==> forall k :: 0 <= k < |items| ==> ItemIssues(items[k], IdsOf(items[..k])) == []
  {
    NumberedEmptyIff(IssueLists(items));
    forall k | 0 <= k < |items| ensures IssueLists(items)[k] == ItemIssues(items[k], IdsOf(items[..k])) {
      IssueListsAt(items, k);
    }
  }

  /** The errors of the whole run numbered k+1 are those of item k. */
  lemma {:induction false} ItemErrorsLocated(items: seq<Value>, k: nat)
    requires k < |items|
    ensures forall e :: e in Tagged(k + 1, ItemIssues(items[k], IdsOf(items[..k]))) <==> e in BankItemErrors(items) && e.item == k + 1
  {
    IssueListsAt(items, k);
    NumberedLocated(IssueLists(items), k);
  }

  /** scripts/validateQuestionBank.mjs, run on the parsed bank. */
  method Validate(data: Value) returns (out: Outcome)
    ensures out == Verdict(data)
  {
    if !data.Arr? {
      // data.entries is not a function: the run throws after recording the size error.
      return Aborted;
    }
    var items := data.elems;
    var errors := SizeErrors(|items|);
    var itemErrors, crashed := CheckItems(items);
    if crashed {
      return Aborted;
    }
    errors := errors + itemErrors;
    if errors != [] {
      return Rejected(errors);
    }
    CleanBankIsWellTyped(items);
    var byCategory := CountBy(items, CategoryField);
    var byDifficulty := CountBy(items, DifficultyField);
    return Accepted(|items|, byCategory, byDifficulty);
  }

  /** The for-of loop over the items: the errors it pushes, or that it throws. */
  method CheckItems(items: seq<Value>) returns (errors: seq<Error>, crashed: bool)
    ensures crashed <==> !NoCrash(items)
    ensures !crashed ==> errors == BankItemErrors(items)
  {
    errors := [];
    var seen: set<Value> := {};
    for i := 0 to |items|
      invariant NoCrash(items[..i])
      invariant seen == IdsOf(items[..i])
      invariant errors == BankItemErrors(items[..i])
    {
      var issues, crashedHere;
      issues, crashedHere, seen := CheckItem(items[i], seen);
      if crashedHere {
        return errors, true;
      }
      errors := errors + Tagged(i + 1, issues);
      LoopStep(items, i);
    }
    assert items[..|items|] == items;
    crashed := false;
  }

  /** What one more pass of the loop adds to the seen ids and to the errors. */
  lemma {:induction false} LoopStep(items: seq<Value>, i: nat)
    requires i < |items| && NoCrash(items[..i]) && !Crashes(items[i])
    ensures NoCrash(items[..i + 1])
    ensures IdsOf(items[..i + 1]) == IdsOf(items[..i]) + {Get(items[i], Id)}
    ensures BankItemErrors(items[..i + 1]) == BankItemErrors(items[..i]) + Tagged(i + 1, ItemIssues(items[i], IdsOf(items[..i])))
  {
    var p := items[..i + 1];
    assert p[..i] == items[..i] && p[i] == items[i];
    assert NoCrash(p) by {
      assert forall j :: 0 <= j < i ==> p[j] == items[..i][j];
    }
    NumberedSnoc(IssueLists(items[..i]), ItemIssues(items[i], IdsOf(items[..i])));
  }

  /** One pass of the loop body: the issues item q is reported for, in
      order, the seen set with its id added, and whether the body throws. */
  method CheckItem(q: Value, seen: set<Value>) returns (issues: seq<Issue>, crashed: bool, seen': set<Value>)
    ensures crashed <==> Crashes(q)
    ensures !crashed ==> issues == ItemIssues(q, seen) && seen' == seen + {Get(q, Id)}
  {
    seen' := seen;
    if q.Null? || q.Undefined? {
      // Reading q.id throws.
      return [], true, seen;
    }
    var f := FindingsOf(q, seen);
    issues := Check(f.missingId, MissingId);
    issues := issues + Check(f.duplicateId, DuplicateId(Get(q, Id)));
    seen' := seen + {Get(q, Id)};
    issues := issues + Check(f.questionTooShort, QuestionTooShort);
    issues := issues + Check(f.choicesNotFour, ChoicesNotFour);
    if !Get(q, Choices).Arr? {
      // q.choices.every is not a function.
      return issues, true, seen';
    }
    issues := issues + Check(f.invalidChoiceText, InvalidChoiceText);
    issues := issues + Check(f.invalidAnswerIndex, InvalidAnswerIndex);
    issues := issues + Check(f.invalidCategory, InvalidCategory(Get(q, CategoryField)));
    issues := issues + Check(f.invalidDifficulty, InvalidDifficulty(Get(q, DifficultyField)));
    issues := issues + Check(f.rationaleTooShort, RationaleTooShort);
    issues := issues + Check(f.invalidHandbookRef, InvalidHandbookRef);
    crashed := false;
  }

  /** data.reduce((acc, q) => { acc[q[field]] = (acc[q[field]] || 0) + 1; return acc; }, {}) */
  method CountBy(items: seq<Value>, field: Field) returns (acc: map<string, nat>)
    requires forall k :: 0 <= k < |items| ==> Get(items[k], field).Str?
    ensures acc == CountsOf(items, field)
  {
    acc := map[];
    for i := 0 to |items|
      invariant acc == CountsOf(items[..i], field)
    {
      var key := Get(items[i], field).s;
      CountsOfPrefix(items, i, field);
      acc := acc[key := (if key in acc then acc[key] else 0) + 1];
    }
    assert items[..|items|] == items;
  }

  /** Counting one more item of the prefix bumps the tally of its value. */
  lemma {:induction false} CountsOfPrefix(items: seq<Value>, i: nat, field: Field)
    requires i < |items| && forall k :: 0 <= k < |items| ==> Get(items[k], field).Str?
    ensures var acc := CountsOf(items[..i], field); var key := Get(items[i], field).s;
      CountsOf(items[..i + 1], field) == acc[key := (if key in acc then acc[key] else 0) + 1]
  {
    assert items[..i + 1][..i] == items[..i];
    assert items[..i + 1][i] == items[i];
  }

  /** Item k is reported as a duplicate exactly when its id is a value a Set
      finds again and an earlier item carries the same id. */
  lemma {:induction false} DuplicateReported(items: seq<Value>, k: nat)
    requires k < |items|
    ensures var id := Get(items[k], Id);
      ItemError(k + 1, DuplicateId(id)) in BankItemErrors(items) <==>
        Remembered(id) && exists j :: 0 <= j < k && Get(items[j], Id) == id
  {
    var q := items[k];
    var seen := IdsOf(items[..k]);
    ItemErrorsLocated(items, k);
    TaggedMembers(k + 1, ItemIssues(q, seen));
    IdMessages(FindingsOf(q, seen), Get(q, Id), Get(q, CategoryField), Get(q, DifficultyField));
    IdsOfMembers(items[..k], Get(q, Id));
    assert forall j :: 0 <= j < k ==> items[..k][j] == items[j];
  }

  /** An item the bank accepts: a non-empty string id, a question and a
      rationale of at least 15 and 30 characters once trimmed, exactly four
      choices that are not blank, an integer answer index that picks one of
      them, a known category and difficulty, and a handbook reference of at
      least three characters. */
  predicate WellFormed(q: Value)
  {
    && Get(q, Id).Str? && Get(q, Id).s != ""
    && Get(q, QuestionText).Str? && |Trim(Get(q, QuestionText).s)| >= 15
    && Get(q, Choices).Arr? && |Get(q, Choices).elems| == 4
    && (forall c :: c in Get(q, Choices).elems ==> c.Str? && |Trim(c.s)| > 0)
    && Get(q, AnswerIndex).Num? && Get(q, AnswerIndex).x.Floor as real == Get(q, AnswerIndex).x
    && 0.0 <= Get(q, AnswerIndex).x < 4.0
    && Get(q, CategoryField).Str? && Get(q, CategoryField).s in AllowedCategories
    && Get(q, DifficultyField).Str? && Get(q, DifficultyField).s in AllowedDifficulties
    && Get(q, Rationale).Str? && |Trim(Get(q, Rationale).s)| >= 30
    && Get(q, HandbookRef).Str? && |Trim(Get(q, HandbookRef).s)| >= 3
  }

  /** An item without issues is well formed. */
  lemma {:induction false} CleanItemIsWellFormed(q: Value, seen: set<Value>)
    requires FindingsOf(q, seen) == Passed
    ensures WellFormed(q) && Get(q, Id) !in seen
  {
    CleanItemId(q, seen);
    CleanItemTexts(q, seen);
    CleanItemChoices(q, seen);
    CleanItemLabels(q, seen);
  }

  lemma {:induction false} CleanItemId(q: Value, seen: set<Value>)
    requires FindingsOf(q, seen) == Passed
    ensures Get(q, Id).Str? && Get(q, Id).s != "" && Get(q, Id) !in seen
  {
    assert !IdMissing(q) && !IdSeen(q, seen);
  }

  lemma {:induction false} CleanItemTexts(q: Value, seen: set<Value>)
    requires FindingsOf(q, seen) == Passed
    ensures Get(q, QuestionText).Str? && |Trim(Get(q, QuestionText).s)| >= 15
    ensures Get(q, Rationale).Str? && |Trim(Get(q, Rationale).s)| >= 30
    ensures Get(q, HandbookRef).Str? && |Trim(Get(q, HandbookRef).s)| >= 3
  {
    assert !TooShort(Get(q, QuestionText), 15) && !TooShort(Get(q, Rationale), 30) && !TooShort(Get(q, HandbookRef), 3);
  }

  lemma {:induction false} CleanItemChoices(q: Value, seen: set<Value>)
    requires FindingsOf(q, seen) == Passed
    ensures Get(q, Choices).Arr? && |Get(q, Choices).elems| == 4
    ensures forall c :: c in Get(q, Choices).elems ==> c.Str? && |Trim(c.s)| > 0
    ensures Get(q, AnswerIndex).Num? && Get(q, AnswerIndex).x.Floor as real == Get(q, AnswerIndex).x
    ensures 0.0 <= Get(q, AnswerIndex).x < 4.0
  {
    assert !ChoicesWrongSize(q) && !ChoiceTextInvalid(q) && !AnswerIndexInvalid(q);
  }

  lemma {:induction false} CleanItemLabels(q: Value, seen: set<Value>)
    requires FindingsOf(q, seen) == Passed
    ensures Get(q, CategoryField).Str? && Get(q, CategoryField).s in AllowedCategories
    ensures Get(q, DifficultyField).Str? && Get(q, DifficultyField).s in AllowedDifficulties
  {
    assert !NotAllowed(Get(q, CategoryField), AllowedCategories) && !NotAllowed(Get(q, DifficultyField), AllowedDifficulties);
  }

  /** The script accepts exactly the arrays of 400 to 700 items in which no
      item throws and no item has an issue. */
  lemma {:induction false} AcceptedIff(data: Value)
    ensures Verdict(data).Accepted? <==>
      && data.Arr? && NoCrash(data.elems) && 400 <= |data.elems| <= 700
      && forall k :: 0 <= k < |data.elems| ==> ItemIssues(data.elems[k], IdsOf(data.elems[..k])) == []
    ensures Verdict(data).Accepted? ==> Verdict(data).total == |data.elems|
  {
    if data.Arr? && NoCrash(data.elems) {
      NoItemErrorsIff(data.elems);
    }
  }

  /** Item k of a bank without item errors passes every check. */
  lemma {:induction false} CleanBankItem(items: seq<Value>, k: nat)
    requires BankItemErrors(items) == [] && k < |items|
    ensures WellFormed(items[k]) && Get(items[k], Id) !in IdsOf(items[..k])
  {
    PassedAt(items, k);
    CleanItemIsWellFormed(items[k], IdsOf(items[..k]));
  }

  lemma {:induction false} PassedAt(items: seq<Value>, k: nat)
    requires BankItemErrors(items) == [] && k < |items|
    ensures FindingsOf(items[k], IdsOf(items[..k])) == Passed
  {
    NoItemErrorsIff(items);
    NoIssuesIff(items[k], IdsOf(items[..k]));
  }

  /** In a bank without item errors every item is well formed and no two items share an id. */
  lemma {:induction false} CleanBankIsWellFormed(items: seq<Value>)
    requires BankItemErrors(items) == []
    ensures forall k :: 0 <= k < |items| ==> WellFormed(items[k])
    ensures forall j, k :: 0 <= j < k < |items| ==> Get(items[j], Id) != Get(items[k], Id)
  {
    forall k | 0 <= k < |items| ensures WellFormed(items[k]) && Get(items[k], Id) !in IdsOf(items[..k]) {
      CleanBankItem(items, k);
    }
    forall j, k | 0 <= j < k < |items| ensures Get(items[j], Id) != Get(items[k], Id) {
      IdsOfMembers(items[..k], Get(items[j], Id));
      assert items[..k][j] == items[j];
    }
  }

  /** So in an accepted bank every item is well formed and the ids are distinct. */
  lemma {:induction false} AcceptedBankIsWellFormed(data: Value)
    requires Verdict(data).Accepted?
    ensures forall k :: 0 <= k < |data.elems| ==> WellFormed(data.elems[k])
    ensures forall j, k :: 0 <= j < k < |data.elems| ==> Get(data.elems[j], Id) != Get(data.elems[k], Id)
  {
    CleanBankIsWellFormed(data.elems);
  }

  /** How many items carry key in the given field. */
  function Occurrences(items: seq<Value>, field: Field, key: string): (n: nat)
    ensures n <= |items|
  {
    if items == [] then 0
    else
      var last := Get(items[|items| - 1], field);
      Occurrences(items[..|items| - 1], field, key) + (if last.Str? && last.s == key then 1 else 0)
  }

  /** The tally has an entry for exactly the values that occur, and that
      entry is the number of items carrying the value. */
  lemma {:induction false} CountsOfCounts(items: seq<Value>, field: Field, key: string)
    requires forall k :: 0 <= k < |items| ==> Get(items[k], field).Str?
    ensures key in CountsOf(items, field) <==> Occurrences(items, field, key) > 0
    ensures key in CountsOf(items, field) ==> CountsOf(items, field)[key] == Occurrences(items, field, key)
  {
    if items != [] {
      var init := items[..|items| - 1];
      assert forall k :: 0 <= k < |init| ==> init[k] == items[k];
      CountsOfCounts(init, field, key);
    }
  }

  /** The sum of the tally's entries for the given names (0 for a name without one). */
  function SumOver(names: seq<string>, m: map<string, nat>): nat
  {
    if names == [] then 0
    else SumOver(names[..|names| - 1], m) + (if names[|names| - 1] in m then m[names[|names| - 1]] else 0)
  }

  lemma {:induction false} SumOverEmpty(names: seq<string>)
    ensures SumOver(names, map[]) == 0
  {
    if names != [] {
      SumOverEmpty(names[..|names| - 1]);
    }
  }

  /** Adding one to the entry of a name listed once adds one to the sum. */
  lemma {:induction false} SumOverBump(names: seq<string>, m: map<string, nat>, key: string)
    requires Distinct(names) && key in names
    ensures SumOver(names, m[key := (if key in m then m[key] else 0) + 1]) == SumOver(names, m) + 1
  {
    var m' := m[key := (if key in m then m[key] else 0) + 1];
    var init := names[..|names| - 1];
    var last := names[|names| - 1];
    assert names == init + [last];
    if last == key {
      assert key !in init;
      SumOverSame(init, m, m');
    } else {
      assert key in init;
      SumOverBump(init, m, key);
    }
  }

  /** Maps that agree on the names give the same sum. */
  lemma {:induction false} SumOverSame(names: seq<string>, m: map<string, nat>, m': map<string, nat>)
    requires forall n :: n in names ==> (n in m <==> n in m') && (n in m ==> m[n] == m'[n])
    ensures SumOver(names, m) == SumOver(names, m')
  {
    if names != [] {
      var init := names[..|names| - 1];
      assert forall n :: n in init ==> n in names;
      SumOverSame(init, m, m');
    }
  }

  /** When every value is one of some distinct names, the tally over those
      names adds up to the number of items. */
  lemma {:induction false} CountsSum(items: seq<Value>, field: Field, names: seq<string>)
    requires Distinct(names)
    requires forall k :: 0 <= k < |items| ==> Get(items[k], field).Str? && Get(items[k], field).s in names
    ensures SumOver(names, CountsOf(items, field)) == |items|
    ensures forall key :: key in CountsOf(items, field) ==> key in names
  {
    if items == [] {
      SumOverEmpty(names);
    } else {
      var init := items[..|items| - 1];
      assert forall k :: 0 <= k < |init| ==> init[k] == items[k];
      CountsSum(init, field, names);
      SumOverBump(names, CountsOf(init, field), Get(items[|items| - 1], field).s);
    }
  }

  /** The two count tables of an accepted bank list only allowed names and
      each adds up to the total. */
  lemma {:induction false} AcceptedCountsSum(data: Value)
    requires Verdict(data).Accepted?
    ensures var v := Verdict(data);
      && SumOver(AllowedCategories, v.byCategory) == v.total
      && SumOver(AllowedDifficulties, v.byDifficulty) == v.total
      && (forall key :: key in v.byCategory ==> key in AllowedCategories)
      && (forall key :: key in v.byDifficulty ==> key in AllowedDifficulties)
  {
    var items := data.elems;
    CleanBankIsWellTyped(items);
    AllowedNamesAreEnumerations();
    CountsSum(items, CategoryField, AllowedCategories);
    CountsSum(items, DifficultyField, AllowedDifficulties);
  }

  /** As written, the not-an-array message is never printed: every non-array
      bank throws (at data.length for null, at data.entries otherwise)
      before the errors are reported. */
  lemma {:induction false} NotAnArrayNeverReported(data: Value)
    ensures !(Verdict(data).Rejected? && NotAnArray in Verdict(data).errors)
    ensures !data.Arr? ==> Verdict(data) == Aborted
  {
    if Verdict(data).Rejected? {
      var items := data.elems;
      assert Verdict(data).errors == SizeErrors(|items|) + BankItemErrors(items);
      assert NotAnArray !in SizeErrors(|items|);
      assert NotAnArray !in BankItemErrors(items);
    }
  }

  /** The smallest bank that shows it: an empty object aborts instead of being reported. */
  lemma {:induction false} EmptyObjectAborts()
    ensures Verdict(Obj(map[])) == Aborted
  {
  }

  /** What the first check evidently means: a bank that is not an array is
      rejected with the not-an-array message alone; an array is judged as
      before. */
  function IntendedVerdict(data: Value): (out: Outcome)
    ensures data.Arr? ==> out == Verdict(data)
  {
    if !data.Arr? then Rejected([NotAnArray]) else Verdict(data)
  }

  /** Under the intended reading the message is reported exactly for a
      non-array bank, and only a throwing item can abort the run. */
  lemma {:induction false} IntendedVerdictReportsNonArray(data: Value)
    ensures (IntendedVerdict(data).Rejected? && NotAnArray in IntendedVerdict(data).errors) <==> !data.Arr?
    ensures IntendedVerdict(data).Aborted? <==> data.Arr? && !NoCrash(data.elems)
  {
    NotAnArrayNeverReported(data);
  }

  /** The script throws exactly for a non-array bank or an item that throws; a
      bank of the wrong size is rejected with the size message first. */
  lemma {:induction false} VerdictShape(data: Value)
    ensures Verdict(data).Aborted? <==> !data.Arr? || !NoCrash(data.elems)
    ensures data.Arr? && NoCrash(data.elems) && (|data.elems| < 400 || |data.elems| > 700) ==>
      Verdict(data).Rejected? && Verdict(data).errors[0] == BankSize(|data.elems|)
    ensures data.Arr? && NoCrash(data.elems) ==>
      ((Verdict(data).Rejected? && BankSize(|data.elems|) in Verdict(data).errors) <==> |data.elems| < 400 || |data.elems| > 700)
  {
    if data.Arr? && NoCrash(data.elems) {
      var items := data.elems;
      assert BankSize(|items|) !in BankItemErrors(items);
    }
  }
}
