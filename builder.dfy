/** The attempt builder of src/engine.ts: category and difficulty filters,
    the easy-medium-hard confidence ramp, and the all-or-nothing selection
    of an attempt's questions. */
module Builder {
  import opened Types
  import opened Seqs
  import opened Sampler

  const InsufficientPoolMessage: string :=
    "Not enough questions in this difficulty. Please choose Mix or regenerate the bank."

  /** How many questions of each difficulty a confidence-ramp attempt takes. */
  datatype Ramp = Ramp(easy: nat, medium: nat, hard: nat)
  {
    function Count(d: Difficulty): nat
    {
      match d
      case Easy => easy
      case Medium => medium
      case Hard => hard
    }

    function Total(): nat
    {
      easy + medium + hard
    }
  }

  const Ramp40: Ramp := Ramp(12, 16, 12)
  const Ramp10: Ramp := Ramp(3, 4, 3)

  /** The difficulty levels in ramp order. */
  const Levels: seq<Difficulty> := [Easy, Medium, Hard]

  /** buildRamp: easy = hard = floor(0.3 * total), medium takes the rest.
      floor(total * 0.3) is (3 * total) / 10 for the totals the app asks for. */
  function BuildRamp(total: nat): (r: Ramp)
    ensures r.Total() == total
    ensures r.easy == r.hard
    ensures 10 * r.easy <= 3 * total < 10 * (r.easy + 1)
  {
    var e := (3 * total) / 10;
    Ramp(e, total - 2 * e, e)
  }

  /** The ramp an attempt of the given size uses: the fixed tables for 40 and 10, the formula otherwise. */
  function RampFor(total: nat): (r: Ramp)
    ensures r.Total() == total
  {
    if total == 40 then Ramp40 else if total == 10 then Ramp10 else BuildRamp(total)
  }

  /** The two fixed tables agree with the formula, so every total gets the formula's ramp. */
  lemma {:induction false} RampTablesMatchFormula(total: nat)
    ensures RampFor(total) == BuildRamp(total)
    ensures RampFor(40) == Ramp(12, 16, 12) && RampFor(10) == Ramp(3, 4, 3)
  {
    assert BuildRamp(40) == Ramp40;
    assert BuildRamp(10) == Ramp10;
  }

  /** A question passes the difficulty filter when the selection is mix or names its level. */
  predicate MatchesDifficulty(q: Question, selected: SelectedDifficulty)
  {
    selected.Mix? || q.difficulty == selected.level
  }

  predicate MatchesCategory(q: Question, filter: Option<Category>)
  {
    filter.None? || q.category == filter.value
  }

  /** The questions of the chosen category, in bank order; all of them without a filter. */
  function CategoryFiltered(all: seq<Question>, filter: Option<Category>): (r: seq<Question>)
    ensures forall q :: q in r <==> q in all && MatchesCategory(q, filter)
    ensures multiset(r) <= multiset(all)
  {
    if filter.None? then all else Filter(all, InCategory(filter.value))
  }

  /** The questions of the pool that pass the difficulty selection, in pool order. */
  function DifficultyFiltered(pool: seq<Question>, selected: SelectedDifficulty): (r: seq<Question>)
    ensures forall q :: q in r <==> q in pool && MatchesDifficulty(q, selected)
    ensures multiset(r) <= multiset(pool)
  {
    if selected.Mix? then pool else Filter(pool, AtLevel(selected.level))
  }

  /** The questions of one difficulty in the pool. */
  function Bucket(pool: seq<Question>, d: Difficulty): (r: seq<Question>)
    ensures forall q :: q in r <==> q in pool && q.difficulty == d
  {
    Filter(pool, AtLevel(d))
  }

  /** The three difficulty buckets split the pool: together they hold each question exactly as often as the pool does. */
  lemma {:induction false} BucketsPartition(pool: seq<Question>)
    ensures multiset(Bucket(pool, Easy)) + multiset(Bucket(pool, Medium)) + multiset(Bucket(pool, Hard)) == multiset(pool)
  {
    var e, m, h := Bucket(pool, Easy), Bucket(pool, Medium), Bucket(pool, Hard);
    forall q ensures (multiset(e) + multiset(m) + multiset(h))[q] == multiset(pool)[q] {
      if q !in pool {
        assert q !in e && q !in m && q !in h;
      }
    }
    assert multiset(e) + multiset(m) + multiset(h) == multiset(pool);
  }

  /** The confidence ramp is in force only when it was asked for and the difficulty is mix. */
  function EffectiveConfidence(confidenceMode: bool, selected: SelectedDifficulty): bool
  {
    confidenceMode && selected.Mix?
  }

  /** The size of the first k ramp blocks. */
  function BlocksBefore(ramp: Ramp, k: nat): (n: nat)
    requires k <= 3
    ensures k == 3 ==> n == ramp.Total()
    ensures 0 < k ==> n == BlocksBefore(ramp, k - 1) + ramp.Count(Levels[k - 1])
  {
    match k
    case 0 => 0
    case 1 => ramp.easy
    case 2 => ramp.easy + ramp.medium
    case _ => ramp.Total()
  }

  /** The difficulty a ramp attempt has at position i: easy, then medium, then hard blocks. */
  function BlockAt(ramp: Ramp, i: nat): (d: Difficulty)
    ensures i < ramp.easy ==> d == Easy
    ensures ramp.easy <= i < ramp.easy + ramp.medium ==> d == Medium
    ensures ramp.easy + ramp.medium <= i ==> d == Hard
  {
    if i < ramp.easy then Easy else if i < ramp.easy + ramp.medium then Medium else Hard
  }

  /** Every bucket holds at least as many questions as its ramp block needs. */
  predicate BucketsSuffice(pool: seq<Question>, ramp: Ramp)
  {
    forall d: Difficulty :: BucketSuffices(pool, ramp, d)
  }

  predicate BucketSuffices(pool: seq<Question>, ramp: Ramp, d: Difficulty)
  {
    |Bucket(pool, d)| >= ramp.Count(d)
  }

  /** The questions the first k buckets hold. */
  function BucketsUpTo(pool: seq<Question>, k: nat): (b: multiset<Question>)
    requires k <= 3
    ensures 0 < k ==> b == BucketsUpTo(pool, k - 1) + multiset(Bucket(pool, Levels[k - 1]))
  {
    var e, m, h := multiset(Bucket(pool, Easy)), multiset(Bucket(pool, Medium)), multiset(Bucket(pool, Hard));
    match k
    case 0 => multiset{}
    case 1 => e
    case 2 => e + m
    case _ => e + m + h
  }

  lemma {:induction false} SubMultisetSum<T>(a: multiset<T>, b: multiset<T>, c: multiset<T>, d: multiset<T>)
    requires a <= b && c <= d
    ensures a + c <= b + d
  {
  }

  /** One turn of the ramp loop: appending the block sampled from bucket k keeps the block layout and the origin of every question. */
  lemma {:induction false} RampStep(pool: seq<Question>, ramp: Ramp, k: nat, before: seq<Question>, picked: seq<Question>)
    requires k < 3
    requires |before| == BlocksBefore(ramp, k)
    requires forall i :: 0 <= i < |before| ==> before[i].difficulty == BlockAt(ramp, i)
    requires multiset(before) <= BucketsUpTo(pool, k)
    requires |picked| == ramp.Count(Levels[k]) && multiset(picked) <= multiset(Bucket(pool, Levels[k]))
    ensures |before + picked| == BlocksBefore(ramp, k + 1)
    ensures forall i :: 0 <= i < |before + picked| ==> (before + picked)[i].difficulty == BlockAt(ramp, i)
    ensures multiset(before + picked) <= BucketsUpTo(pool, k + 1)
  {
    var chosen := before + picked;
    assert multiset(chosen) == multiset(before) + multiset(picked);
    SubMultisetSum(multiset(before), BucketsUpTo(pool, k), multiset(picked), multiset(Bucket(pool, Levels[k])));
    RampBlockStep(pool, ramp, k, before, picked);
  }

  lemma {:induction false} RampBlockStep(pool: seq<Question>, ramp: Ramp, k: nat, before: seq<Question>, picked: seq<Question>)
    requires k < 3
    requires |before| == BlocksBefore(ramp, k)
    requires forall i :: 0 <= i < |before| ==> before[i].difficulty == BlockAt(ramp, i)
    requires |picked| == ramp.Count(Levels[k]) && multiset(picked) <= multiset(Bucket(pool, Levels[k]))
    ensures forall i :: 0 <= i < |before + picked| ==> (before + picked)[i].difficulty == BlockAt(ramp, i)
  {
    var chosen := before + picked;
    forall i | 0 <= i < |chosen| ensures chosen[i].difficulty == BlockAt(ramp, i) {
      if i < |before| {
        assert chosen[i] == before[i];
      } else {
        assert chosen[i] == picked[i - |before|];
        assert chosen[i] in multiset(picked);
      }
    }
  }

  datatype BuildResult = Built(questions: seq<Question>, effectiveConfidenceMode: bool) | Failed(error: string)

  /** The ramp branch of buildTest: for easy, medium and hard in turn, sample
      the ramp's count from that difficulty's bucket, stopping at the first
      bucket that is too small. */
  method TakeRamp(pool: seq<Question>, ramp: Ramp, rng: (nat, nat) -> nat, cursor: nat)
    returns (r: Option<seq<Question>>, next: nat)
    requires IndexSource(rng)
    ensures r.Some? <==> BucketsSuffice(pool, ramp)
    ensures r.Some? ==> |r.value| == ramp.Total()
    ensures r.Some? ==> forall i :: 0 <= i < |r.value| ==> r.value[i].difficulty == BlockAt(ramp, i)
    ensures r.Some? ==> multiset(r.value) <= multiset(pool)
  {
    var chosen: seq<Question> := [];
    next := cursor;
    for k := 0 to 3
      invariant |chosen| == BlocksBefore(ramp, k)
      invariant forall i :: 0 <= i < |chosen| ==> chosen[i].difficulty == BlockAt(ramp, i)
      invariant multiset(chosen) <= BucketsUpTo(pool, k)
      invariant 1 <= k ==> BucketSuffices(pool, ramp, Easy)
      invariant 2 <= k ==> BucketSuffices(pool, ramp, Medium)
      invariant 3 <= k ==> BucketSuffices(pool, ramp, Hard)
    {
      var level := Levels[k];
      var bucket := Bucket(pool, level);
      var picked;
      picked, next := SampleOrNull(bucket, ramp.Count(level), rng, next);
      if picked.None? {
        assert !BucketSuffices(pool, ramp, level);
        assert !BucketsSuffice(pool, ramp);
        return None, next;
      }
      assert BucketSuffices(pool, ramp, level);
      RampStep(pool, ramp, k, chosen, picked.value);
      chosen := chosen + picked.value;
    }
    BucketsPartition(pool);
    assert BucketsUpTo(pool, 3) == multiset(Bucket(pool, Easy)) + multiset(Bucket(pool, Medium)) + multiset(Bucket(pool, Hard));
    assert BucketsSuffice(pool, ramp) by {
      forall d: Difficulty ensures BucketSuffices(pool, ramp, d) {
        match d
        case Easy =>
        case Medium =>
        case Hard =>
      }
    }
    return Some(chosen), next;
  }

  /** buildTest: filter by category and difficulty, then either take the ramp's
      three blocks from the difficulty buckets or sample `total` questions of
      the filtered pool. Either every question is found or the build fails
      with the fixed message and returns no list. */
  method BuildTest(all: seq<Question>, total: nat, confidenceMode: bool, selected: SelectedDifficulty,
                   categoryFilter: Option<Category>, rng: (nat, nat) -> nat, cursor: nat)
    returns (r: BuildResult, next: nat)
    requires IndexSource(rng)
    ensures r.Failed? ==> r.error == InsufficientPoolMessage
    ensures r.Built? ==> r.effectiveConfidenceMode == EffectiveConfidence(confidenceMode, selected)
    ensures r.Built? ==> |r.questions| == total
    ensures r.Built? ==> forall q :: q in r.questions ==> q in all && MatchesCategory(q, categoryFilter) && MatchesDifficulty(q, selected)
    ensures r.Built? ==> multiset(r.questions) <= multiset(DifficultyFiltered(CategoryFiltered(all, categoryFilter), selected))
    ensures EffectiveConfidence(confidenceMode, selected) ==>
      (r.Built? <==> BucketsSuffice(CategoryFiltered(all, categoryFilter), RampFor(total)))
    ensures EffectiveConfidence(confidenceMode, selected) && r.Built? ==>
      forall i :: 0 <= i < |r.questions| ==> r.questions[i].difficulty == BlockAt(RampFor(total), i)
    ensures !EffectiveConfidence(confidenceMode, selected) ==>
      (r.Built? <==> |DifficultyFiltered(CategoryFiltered(all, categoryFilter), selected)| >= total)
    ensures !EffectiveConfidence(confidenceMode, selected) && r.Built? ==>
      r.questions == Shuffled(DifficultyFiltered(CategoryFiltered(all, categoryFilter), selected), rng, cursor)[..total]
  {
    var pool := DifficultyFiltered(CategoryFiltered(all, categoryFilter), selected);
    var picked;
    if EffectiveConfidence(confidenceMode, selected) {
      picked, next := TakeRamp(pool, RampFor(total), rng, cursor);
    } else {
      picked, next := SampleOrNull(pool, total, rng, cursor);
    }
    if picked.None? {
      return Failed(InsufficientPoolMessage), next;
    }
    forall q | q in picked.value ensures q in pool {
      assert q in multiset(picked.value);
    }
    r := Built(picked.value, EffectiveConfidence(confidenceMode, selected));
  }
}
