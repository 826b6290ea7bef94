/**
 * The rating classifier: a score is mapped to a grade by a ladder of
 * thresholds tried from the highest down, the first one met deciding.
 */
module Ratings {

  /** The grades a record's `rating` may hold (its property's `choices`). */
  datatype Rating = Exc | Sss | Ss | S | A | B | C | D | E | Unrated {

    /** The string the datastore stores for the grade. */
    function Name(): string
    {
      match this
      case Exc => "exc"
      case Sss => "sss"
      case Ss => "ss"
      case S => "s"
      case A => "a"
      case B => "b"
      case C => "c"
      case D => "d"
      case E => "e"
      case Unrated => ""
    }
  }

  /** The grades, best first (models.py line 38). */
  const RATINGS: seq<Rating> := [Exc, Sss, Ss, S, A, B, C, D, E, Unrated]

  /**
   * The lower bound of each grade but the last, in the same order as RATINGS;
   * the source's `score > 0` is `score >= 1` on integers.
   */
  const THRESHOLDS: seq<int> := [1000000, 980000, 950000, 900000, 850000, 800000, 700000, 500000, 1]

  /** The grade of a score. Negative scores are not clamped; they fall through to Unrated. */
  function RatingByScore(score: int): (r: Rating)
    ensures r == E <==> 0 < score < 500000
    ensures r == Exc <==> score >= 1000000
    ensures r == Unrated <==> score <= 0
  {
    if score >= 1000000 then Exc
    else if score >= 980000 then Sss
    else if score >= 950000 then Ss
    else if score >= 900000 then S
    else if score >= 850000 then A
    else if score >= 800000 then B
    else if score >= 700000 then C
    else if score >= 500000 then D
    else if score > 0 then E
    else Unrated
  }

  /** The position of the first threshold in `ts` that `score` meets, or |ts| when it meets none. */
  function FirstMet(ts: seq<int>, score: int): (k: nat)
    ensures k <= |ts|
    ensures forall j :: 0 <= j < k ==> score < ts[j]
    ensures k < |ts| ==> ts[k] <= score
  {
    if ts == [] then 0
    else if ts[0] <= score then 0
    else 1 + FirstMet(ts[1..], score)
  }

  /** The position of a grade in RATINGS: 0 is the best grade, 9 is Unrated. */
  function Rank(r: Rating): (k: nat)
    ensures k < |RATINGS| && RATINGS[k] == r
  {
    match r
    case Exc => 0
    case Sss => 1
    case Ss => 2
    case S => 3
    case A => 4
    case B => 5
    case C => 6
    case D => 7
    case E => 8
    case Unrated => 9
  }

  /** The first threshold met is determined by the two facts that define it. */
  lemma FirstMetIs(ts: seq<int>, score: int, k: nat)
    requires k <= |ts|
    requires forall j :: 0 <= j < k ==> score < ts[j]
    requires k < |ts| ==> ts[k] <= score
    ensures FirstMet(ts, score) == k
  {
  }

  /** The ladder: the grade of a score is the one whose threshold is the first the score meets. */
  lemma RatingIsFirstThresholdMet(score: int)
    ensures RatingByScore(score) == RATINGS[FirstMet(THRESHOLDS, score)]
  {
    var k := if score >= 1000000 then 0
      else if score >= 980000 then 1
      else if score >= 950000 then 2
      else if score >= 900000 then 3
      else if score >= 850000 then 4
      else if score >= 800000 then 5
      else if score >= 700000 then 6
      else if score >= 500000 then 7
      else if score > 0 then 8
      else 9;
    FirstMetIs(THRESHOLDS, score, k);
  }

  /** A higher score meets a threshold of the ladder no later. */
  lemma {:induction false} FirstMetMonotone(ts: seq<int>, s1: int, s2: int)
    requires s1 <= s2
    ensures FirstMet(ts, s2) <= FirstMet(ts, s1)
  {
    if ts != [] && ts[0] > s2 {
      FirstMetMonotone(ts[1..], s1, s2);
    }
  }

  /** A higher score never gets a worse grade (a larger Rank). */
  lemma RatingMonotone(s1: int, s2: int)
    requires s1 <= s2
    ensures Rank(RatingByScore(s2)) <= Rank(RatingByScore(s1))
  {
    RatingIsFirstThresholdMet(s1);
    RatingIsFirstThresholdMet(s2);
    FirstMetMonotone(THRESHOLDS, s1, s2);
    RankOfRatings(FirstMet(THRESHOLDS, s1));
    RankOfRatings(FirstMet(THRESHOLDS, s2));
  }

  /** Rank inverts indexing into RATINGS. */
  lemma RankOfRatings(k: nat)
    requires k < |RATINGS|
    ensures Rank(RATINGS[k]) == k
  {
    if k == 0 {} else if k == 1 {} else if k == 2 {} else if k == 3 {} else if k == 4 {}
    else if k == 5 {} else if k == 6 {} else if k == 7 {} else if k == 8 {} else {}
  }

  /** Every grade is stored under a distinct name, one of the source's RATINGS strings. */
  lemma NamesAreDistinct(r1: Rating, r2: Rating)
    ensures r1.Name() == r2.Name() ==> r1 == r2
    ensures r1.Name() in ["exc", "sss", "ss", "s", "a", "b", "c", "d", "e", ""]
  {
  }

  /** Scores of zero or below, negative ones included, are unrated. */
  lemma NonPositiveIsUnrated(score: int)
    requires score <= 0
    ensures RatingByScore(score) == Unrated && RatingByScore(score).Name() == ""
  {
  }
}
