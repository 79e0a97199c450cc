/** The quiz trainer's data model: the closed category and difficulty
    enumerations, questions, answer records and weakness results. */
module Types {

  datatype Option<T> = None | Some(value: T)

  /** The ten question categories, in the order the question bank lists them. */
  datatype Category =
    | RightOfWay
    | SignsSignalsMarkings
    | SpeedAndFollowingDistance
    | LaneUseAndTurns
    | Parking
    | FreewayDriving
    | SharingTheRoad
    | DistractedImpairedDriving
    | HazardsAndDefensiveDriving
    | LicensingRulesAndSafety

  const Categories: seq<Category> := [
    RightOfWay, SignsSignalsMarkings, SpeedAndFollowingDistance, LaneUseAndTurns, Parking,
    FreewayDriving, SharingTheRoad, DistractedImpairedDriving, HazardsAndDefensiveDriving,
    LicensingRulesAndSafety
  ]

  /** The identifier a category has in the question bank's JSON. */
  function CategoryName(c: Category): string
  {
    match c
    case RightOfWay => "RightOfWay"
    case SignsSignalsMarkings => "SignsSignalsMarkings"
    case SpeedAndFollowingDistance => "SpeedAndFollowingDistance"
    case LaneUseAndTurns => "LaneUseAndTurns"
    case Parking => "Parking"
    case FreewayDriving => "FreewayDriving"
    case SharingTheRoad => "SharingTheRoad"
    case DistractedImpairedDriving => "DistractedImpairedDriving"
    case HazardsAndDefensiveDriving => "HazardsAndDefensiveDriving"
    case LicensingRulesAndSafety => "LicensingRulesAndSafety"
  }

  datatype Difficulty = Easy | Medium | Hard

  function DifficultyName(d: Difficulty): string
  {
    match d
    case Easy => "easy"
    case Medium => "medium"
    case Hard => "hard"
  }

  /** The difficulty a user picks: one pinned level, or every level ("mix"). */
  datatype SelectedDifficulty = Pinned(level: Difficulty) | Mix

  datatype Mode = Practice | Exam

  datatype Question = Question(
    id: string,
    question: string,
    choices: seq<string>,
    answerIndex: int,
    category: Category,
    difficulty: Difficulty,
    rationale: string,
    handbookRef: string)

  /** The filter predicates q => q.category === c and q => q.difficulty === d. */
  function InCategory(c: Category): Question -> bool
  {
    (q: Question) => q.category == c
  }

  function AtLevel(d: Difficulty): Question -> bool
  {
    (q: Question) => q.difficulty == d
  }

  datatype AnswerRecord = AnswerRecord(questionId: string, selectedIndex: int, correct: bool)

  /** The question ids of a list of answer records, position by position. */
  function AnswerIds(answers: seq<AnswerRecord>): (ids: seq<string>)
    ensures |ids| == |answers|
    ensures forall k :: 0 <= k < |answers| ==> ids[k] == answers[k].questionId
  {
    seq(|answers|, k requires 0 <= k < |answers| => answers[k].questionId)
  }

  /** The ids of a list of questions, position by position. */
  function QuestionIds(questions: seq<Question>): (ids: seq<string>)
    ensures |ids| == |questions|
    ensures forall k :: 0 <= k < |questions| ==> ids[k] == questions[k].id
  {
    seq(|questions|, k requires 0 <= k < |questions| => questions[k].id)
  }

  /** One row of the weakness ranking; missRate is the exact ratio missed/total. */
  datatype WeaknessResult = WeaknessResult(category: Category, missed: nat, total: nat, missRate: real)

  /** The category list is the whole enumeration, each value once. */
  lemma {:induction false} CategoriesEnumerated()
    ensures |Categories| == 10
    ensures forall c: Category :: c in Categories
    ensures forall i, j :: 0 <= i < j < |Categories| ==> Categories[i] != Categories[j]
  {
    forall c: Category ensures c in Categories {
      match c
      case RightOfWay => assert Categories[0] == c;
      case SignsSignalsMarkings => assert Categories[1] == c;
      case SpeedAndFollowingDistance => assert Categories[2] == c;
      case LaneUseAndTurns => assert Categories[3] == c;
      case Parking => assert Categories[4] == c;
      case FreewayDriving => assert Categories[5] == c;
      case SharingTheRoad => assert Categories[6] == c;
      case DistractedImpairedDriving => assert Categories[7] == c;
      case HazardsAndDefensiveDriving => assert Categories[8] == c;
      case LicensingRulesAndSafety => assert Categories[9] == c;
    }
  }

  /** Distinct categories have distinct JSON names. */
  lemma {:induction false} CategoryNameInjective(a: Category, b: Category)
    ensures CategoryName(a) == CategoryName(b) ==> a == b
  {
  }
}
