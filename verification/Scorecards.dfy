/** What a scorecard must contain to count, what it scores, and which ones are outstanding. */
module Scorecards {
  import opened Wrappers
  import opened Sizes

  type CriterionId = nat
  type UserId = nat

  datatype Criterion = Criterion(id: CriterionId, weight: real, maxRating: int)

  datatype Rating = Rating(criterion: CriterionId, rating: real)

  datatype Problem = UnknownCriterion | DuplicateCriterion | MissingCriterion | RatingOutOfRange

  datatype Verdict = Valid | Invalid(code: Problem)

  /** A map built from the list: the last criterion listed under an id wins. */
  function Find(criteria: seq<Criterion>, id: CriterionId): Option<Criterion> {
    if criteria == [] then None
    else
      var last := criteria[|criteria| - 1];
      if last.id == id then Some(last) else Find(criteria[..|criteria| - 1], id)
  }

  predicate IsInteger(r: real) {
    r == r.Floor as real
  }

  predicate InRange(criterion: Criterion, rating: real) {
    IsInteger(rating) && 1.0 <= rating <= criterion.maxRating as real
  }

  // ----- validation

  /** What is wrong with one rating, given those before it. */
  function ProblemAt(criteria: seq<Criterion>, ratings: seq<Rating>, i: nat): Option<Problem>
    requires i < |ratings|
  {
    var criterion := Find(criteria, ratings[i].criterion);
    if criterion.None? then Some(UnknownCriterion)
    else if exists j :: 0 <= j < i && ratings[j].criterion == ratings[i].criterion then Some(DuplicateCriterion)
    else if !InRange(criterion.value, ratings[i].rating) then Some(RatingOutOfRange)
    else None
  }

  ghost predicate Rated(ratings: seq<Rating>, id: CriterionId) {
    exists i :: 0 <= i < |ratings| && ratings[i].criterion == id
  }

  ghost predicate Sound(criteria: seq<Criterion>, ratings: seq<Rating>) {
    forall i :: 0 <= i < |ratings| ==> ProblemAt(criteria, ratings, i) == None
  }

  /** All-or-nothing: nothing wrong with any rating, and no criterion left out. */
  ghost predicate Complete(criteria: seq<Criterion>, ratings: seq<Rating>) {
    Sound(criteria, ratings) && forall k :: 0 <= k < |criteria| ==> Rated(ratings, criteria[k].id)
  }

  ghost predicate FirstWrong(criteria: seq<Criterion>, ratings: seq<Rating>, i: nat, code: Problem) {
    && i < |ratings|
    && ProblemAt(criteria, ratings, i) == Some(code)
    && forall j :: 0 <= j < i ==> ProblemAt(criteria, ratings, j) == None
  }

  /** Accepts exactly the complete ratings, and otherwise names the first thing wrong. */
  method ValidateRatings(criteria: seq<Criterion>, ratings: seq<Rating>) returns (verdict: Verdict)
    ensures verdict == Valid <==> Complete(criteria, ratings)
    ensures verdict == Invalid(MissingCriterion) <==> Sound(criteria, ratings) && !Complete(criteria, ratings)
    ensures !Sound(criteria, ratings) ==> exists i :: verdict.Invalid? && FirstWrong(criteria, ratings, i, verdict.code)
  {
    var seen: set<CriterionId> := {};
    for i := 0 to |ratings|
      invariant seen == set j | 0 <= j < i :: ratings[j].criterion
      invariant forall j :: 0 <= j < i ==> ProblemAt(criteria, ratings, j) == None
    {
      var rating := ratings[i];
      var criterion := Find(criteria, rating.criterion);
      if criterion.None? {
        assert FirstWrong(criteria, ratings, i, UnknownCriterion);
        return Invalid(UnknownCriterion);
      }
      if rating.criterion in seen {
        assert FirstWrong(criteria, ratings, i, DuplicateCriterion);
        return Invalid(DuplicateCriterion);
      }
      seen := seen + {rating.criterion};
      if !InRange(criterion.value, rating.rating) {
        assert FirstWrong(criteria, ratings, i, RatingOutOfRange);
        return Invalid(RatingOutOfRange);
      }
    }
    for k := 0 to |criteria|
      invariant forall j :: 0 <= j < k ==> Rated(ratings, criteria[j].id)
    {
      if criteria[k].id !in seen {
        assert !Rated(ratings, criteria[k].id);
        return Invalid(MissingCriterion);
      }
    }
    verdict := Valid;
  }

  ghost predicate DistinctCriteria(criteria: seq<Criterion>) {
    forall i, j :: 0 <= i < j < |criteria| ==> criteria[i].id != criteria[j].id
  }

  /** One of the numbers 1, 2, 3 and so on up to the top of the scale. */
  ghost predicate OnScale(criterion: Criterion, rating: real) {
    exists n: int :: IsStep(criterion, n, rating)
  }

  ghost predicate IsStep(criterion: Criterion, n: int, rating: real) {
    1 <= n <= criterion.maxRating && rating == n as real
  }

  lemma OnScaleIsInRange(criterion: Criterion, rating: real)
    ensures OnScale(criterion, rating) <==> InRange(criterion, rating)
  {
    if InRange(criterion, rating) {
      assert IsStep(criterion, rating.Floor, rating);
    }
    if OnScale(criterion, rating) {
      var n: int :| IsStep(criterion, n, rating);
      assert rating.Floor == n;
    }
  }

  /** One rating for each criterion and one criterion for each rating, every one in range. */
  ghost predicate Bijection(criteria: seq<Criterion>, ratings: seq<Rating>) {
    && |ratings| == |criteria|
    && (forall i, j :: 0 <= i < j < |ratings| ==> ratings[i].criterion != ratings[j].criterion)
    && (forall i :: 0 <= i < |ratings| ==>
          exists k :: 0 <= k < |criteria| && criteria[k].id == ratings[i].criterion
                      && OnScale(criteria[k], ratings[i].rating))
  }

  lemma {:induction false} FindFinds(criteria: seq<Criterion>, id: CriterionId)
    ensures Find(criteria, id).Some? <==> exists k :: 0 <= k < |criteria| && criteria[k].id == id
    ensures Find(criteria, id).Some? ==> Find(criteria, id).value in criteria && Find(criteria, id).value.id == id
  {
    if criteria != [] {
      var last := |criteria| - 1;
      FindFinds(criteria[..last], id);
      if criteria[last].id == id {
      } else if Find(criteria[..last], id).Some? {
        var k :| 0 <= k < last && criteria[..last][k].id == id;
        assert criteria[k].id == id;
      } else {
        forall k | 0 <= k < |criteria| ensures criteria[k].id != id {
          assert k < last ==> criteria[..last][k] == criteria[k];
        }
      }
    }
  }

  ghost predicate LastWithId(criteria: seq<Criterion>, k: nat)
    requires k < |criteria|
  {
    forall j :: k < j < |criteria| ==> criteria[j].id != criteria[k].id
  }

  /** Listed under the id, with none listed under the same id after it. */
  ghost predicate Listed(criteria: seq<Criterion>, criterion: Criterion) {
    exists k :: 0 <= k < |criteria| && criteria[k] == criterion && LastWithId(criteria, k)
  }

  lemma {:induction false} FindListed(criteria: seq<Criterion>, id: CriterionId)
    ensures Find(criteria, id).Some? ==> Listed(criteria, Find(criteria, id).value)
  {
    if criteria != [] {
      var last := |criteria| - 1;
      FindListed(criteria[..last], id);
      if criteria[last].id == id {
        assert LastWithId(criteria, last);
      } else if Find(criteria, id).Some? {
        FindFinds(criteria[..last], id);
        var k :| 0 <= k < last && criteria[..last][k] == Find(criteria, id).value && LastWithId(criteria[..last], k);
        assert forall j :: k < j < last ==> criteria[..last][j] == criteria[j];
        assert criteria[k] == Find(criteria, id).value && LastWithId(criteria, k);
      }
    }
  }

  lemma FindExactlyWhen(criteria: seq<Criterion>, id: CriterionId, criterion: Criterion)
    ensures Find(criteria, id) == Some(criterion) <==> criterion.id == id && Listed(criteria, criterion)
  {
    FindFinds(criteria, id);
    FindListed(criteria, id);
    if criterion.id == id && Listed(criteria, criterion) {
      var k :| 0 <= k < |criteria| && criteria[k] == criterion && LastWithId(criteria, k);
      var j :| 0 <= j < |criteria| && criteria[j] == Find(criteria, id).value && LastWithId(criteria, j);
      assert j == k;
    }
  }

  lemma FindUnique(criteria: seq<Criterion>, k: nat)
    requires k < |criteria| && DistinctCriteria(criteria)
    ensures Find(criteria, criteria[k].id) == Some(criteria[k])
  {
    FindFinds(criteria, criteria[k].id);
  }

  function RatingIds(ratings: seq<Rating>): seq<CriterionId> {
    seq(|ratings|, i requires 0 <= i < |ratings| => ratings[i].criterion)
  }

  function CriterionIds(criteria: seq<Criterion>): seq<CriterionId> {
    seq(|criteria|, k requires 0 <= k < |criteria| => criteria[k].id)
  }

  lemma CompleteIsBijection(criteria: seq<Criterion>, ratings: seq<Rating>)
    requires DistinctCriteria(criteria) && Complete(criteria, ratings)
    ensures Bijection(criteria, ratings)
  {
    var ids, rated := CriterionIds(criteria), RatingIds(ratings);
    forall i, j | 0 <= i < j < |ratings| ensures ratings[i].criterion != ratings[j].criterion {
      assert ProblemAt(criteria, ratings, j) == None;
    }
    forall i | 0 <= i < |ratings|
      ensures exists k :: 0 <= k < |criteria| && criteria[k].id == ratings[i].criterion
                          && OnScale(criteria[k], ratings[i].rating)
    {
      assert ProblemAt(criteria, ratings, i) == None;
      FindFinds(criteria, ratings[i].criterion);
      OnScaleIsInRange(Find(criteria, ratings[i].criterion).value, ratings[i].rating);
    }
    DistinctSize(ids);
    DistinctSize(rated);
    assert Elements(ids) == Elements(rated) by {
      forall id | id in ids ensures id in rated {
        var k :| 0 <= k < |ids| && ids[k] == id;
        assert Rated(ratings, criteria[k].id);
        var i :| 0 <= i < |ratings| && ratings[i].criterion == id;
        assert rated[i] == id;
      }
      forall id | id in rated ensures id in ids {
        var i :| 0 <= i < |rated| && rated[i] == id;
        var k :| 0 <= k < |criteria| && criteria[k].id == ratings[i].criterion;
        assert ids[k] == id;
      }
    }
  }

  lemma BijectionIsComplete(criteria: seq<Criterion>, ratings: seq<Rating>)
    requires DistinctCriteria(criteria) && Bijection(criteria, ratings)
    ensures Complete(criteria, ratings)
  {
    var ids, rated := CriterionIds(criteria), RatingIds(ratings);
    forall i | 0 <= i < |ratings| ensures ProblemAt(criteria, ratings, i) == None {
      var k :| 0 <= k < |criteria| && criteria[k].id == ratings[i].criterion && OnScale(criteria[k], ratings[i].rating);
      FindUnique(criteria, k);
      OnScaleIsInRange(criteria[k], ratings[i].rating);
    }
    DistinctSize(ids);
    DistinctSize(rated);
    var all, some := Elements(ids), Elements(rated);
    forall id | id in some ensures id in all {
      var i :| 0 <= i < |rated| && rated[i] == id;
      var k :| 0 <= k < |criteria| && criteria[k].id == ratings[i].criterion;
      assert ids[k] == id;
    }
    SubsetSize(some, all);
    forall k | 0 <= k < |criteria| ensures Rated(ratings, criteria[k].id) {
      assert ids[k] in all;
      var i :| 0 <= i < |rated| && rated[i] == ids[k];
      assert ratings[i].criterion == criteria[k].id;
    }
  }

  /** For criteria with distinct ids, acceptance means exactly a bijection onto them, in range. */
  lemma AcceptedExactlyWhenBijection(criteria: seq<Criterion>, ratings: seq<Rating>)
    requires DistinctCriteria(criteria)
    ensures Complete(criteria, ratings) <==> Bijection(criteria, ratings)
  {
    if Complete(criteria, ratings) { CompleteIsBijection(criteria, ratings); }
    if Bijection(criteria, ratings) { BijectionIsComplete(criteria, ratings); }
  }

  // ----- the score

  /** The criterion a rating counts towards, unless it carries no weight. */
  function Counted(criteria: seq<Criterion>, rating: Rating): (criterion: Option<Criterion>)
    ensures criterion.Some? ==> criterion.value.weight > 0.0 && criterion.value.maxRating >= 1
  {
    var criterion := Find(criteria, rating.criterion);
    if criterion.None? || criterion.value.weight <= 0.0 || criterion.value.maxRating < 1 then None else criterion
  }

  /** A rating on the criterion's own scale, as a part of the criterion's weight. */
  function Worth(criterion: Criterion, rating: real): real
    requires criterion.maxRating >= 1
  {
    rating / criterion.maxRating as real * criterion.weight
  }

  function Share(criteria: seq<Criterion>, rating: Rating): real {
    var criterion := Counted(criteria, rating);
    if criterion.None? then 0.0 else Worth(criterion.value, rating.rating)
  }

  function Weight(criteria: seq<Criterion>, rating: Rating): real {
    var criterion := Counted(criteria, rating);
    if criterion.None? then 0.0 else criterion.value.weight
  }

  function Shares(criteria: seq<Criterion>, ratings: seq<Rating>): (shares: seq<real>)
    ensures |shares| == |ratings|
  {
    seq(|ratings|, i requires 0 <= i < |ratings| => Share(criteria, ratings[i]))
  }

  function Weights(criteria: seq<Criterion>, ratings: seq<Rating>): (weights: seq<real>)
    ensures |weights| == |ratings|
  {
    seq(|ratings|, i requires 0 <= i < |ratings| => Weight(criteria, ratings[i]))
  }

  function Sum(xs: seq<real>): real {
    if xs == [] then 0.0 else Sum(xs[..|xs| - 1]) + xs[|xs| - 1]
  }

  function Quotient(part: real, whole: real): Option<real> {
    if whole > 0.0 then Some(part / whole) else None
  }

  function Score(criteria: seq<Criterion>, ratings: seq<Rating>): Option<real> {
    Quotient(Sum(Shares(criteria, ratings)), Sum(Weights(criteria, ratings)))
  }

  lemma SumSnoc(xs: seq<real>, x: real)
    ensures Sum(xs + [x]) == Sum(xs) + x
  {
    assert (xs + [x])[..|xs|] == xs;
  }

  lemma OneMoreTerm(criteria: seq<Criterion>, ratings: seq<Rating>, i: nat)
    requires i < |ratings|
    ensures Sum(Shares(criteria, ratings)[..i + 1]) == Sum(Shares(criteria, ratings)[..i]) + Share(criteria, ratings[i])
    ensures Sum(Weights(criteria, ratings)[..i + 1])
         == Sum(Weights(criteria, ratings)[..i]) + Weight(criteria, ratings[i])
  {
    SumSnoc(Shares(criteria, ratings)[..i], Share(criteria, ratings[i]));
    SumSnoc(Weights(criteria, ratings)[..i], Weight(criteria, ratings[i]));
    assert Shares(criteria, ratings)[..i + 1] == Shares(criteria, ratings)[..i] + [Share(criteria, ratings[i])];
    assert Weights(criteria, ratings)[..i + 1] == Weights(criteria, ratings)[..i] + [Weight(criteria, ratings[i])];
  }

  /** The two accumulators. */
  method SummarizeScorecard(criteria: seq<Criterion>, ratings: seq<Rating>) returns (score: Option<real>)
    ensures score == Score(criteria, ratings)
  {
    var weighted := 0.0;
    var totalWeight := 0.0;
    for i := 0 to |ratings|
      invariant weighted == Sum(Shares(criteria, ratings)[..i])
      invariant totalWeight == Sum(Weights(criteria, ratings)[..i])
    {
      OneMoreTerm(criteria, ratings, i);
      var rating := ratings[i];
      var criterion := Find(criteria, rating.criterion);
      if criterion.None? || criterion.value.weight <= 0.0 || criterion.value.maxRating < 1 {
        continue;
      }
      weighted := weighted + Worth(criterion.value, rating.rating);
      totalWeight := totalWeight + criterion.value.weight;
    }
    assert Shares(criteria, ratings)[..|ratings|] == Shares(criteria, ratings);
    assert Weights(criteria, ratings)[..|ratings|] == Weights(criteria, ratings);
    score := Quotient(weighted, totalWeight);
  }

  // ----- what the score is

  /** The rating is of this criterion, and the criterion carries weight. */
  ghost predicate Carries(criteria: seq<Criterion>, rating: Rating, criterion: Criterion) {
    && criterion.id == rating.criterion && Listed(criteria, criterion)
    && criterion.weight > 0.0 && criterion.maxRating >= 1
  }

  lemma CountedExactlyWhen(criteria: seq<Criterion>, rating: Rating, criterion: Criterion)
    ensures Counted(criteria, rating) == Some(criterion) <==> Carries(criteria, rating, criterion)
  {
    FindExactlyWhen(criteria, rating.criterion, criterion);
  }

  /** Some rating carries weight. */
  ghost predicate Weighs(criteria: seq<Criterion>, ratings: seq<Rating>) {
    exists i, criterion :: 0 <= i < |ratings| && Carries(criteria, ratings[i], criterion)
  }

  lemma WeightIs(criteria: seq<Criterion>, rating: Rating)
    ensures forall criterion :: Carries(criteria, rating, criterion) ==> Weight(criteria, rating) == criterion.weight
    ensures (forall criterion :: !Carries(criteria, rating, criterion)) ==> Weight(criteria, rating) == 0.0
    ensures Weight(criteria, rating) > 0.0 <==> exists criterion :: Carries(criteria, rating, criterion)
    ensures Weight(criteria, rating) >= 0.0
  {
    forall criterion ensures Counted(criteria, rating) == Some(criterion) <==> Carries(criteria, rating, criterion) {
      CountedExactlyWhen(criteria, rating, criterion);
    }
    if Counted(criteria, rating).Some? {
      assert Carries(criteria, rating, Counted(criteria, rating).value);
    }
  }

  /** There is a score exactly when some rating carries weight. */
  lemma ScoredExactlyWhen(criteria: seq<Criterion>, ratings: seq<Rating>)
    ensures Score(criteria, ratings).Some? <==> Weighs(criteria, ratings)
  {
    var weights := Weights(criteria, ratings);
    forall i | 0 <= i < |ratings|
      ensures weights[i] >= 0.0 && (weights[i] > 0.0 <==> exists criterion :: Carries(criteria, ratings[i], criterion))
    {
      WeightIs(criteria, ratings[i]);
    }
    SumsCompare(weights, weights);
  }

  lemma FractionOfScale(q: real, max: real, weight: real)
    requires max > 0.0
    ensures q * max / max * weight == q * weight
  {
    assert q * max / max == q;
  }

  lemma {:induction false} SumOfFractions(q: real, parts: seq<real>, wholes: seq<real>)
    requires |parts| == |wholes| && forall i :: 0 <= i < |parts| ==> parts[i] == q * wholes[i]
    ensures Sum(parts) == q * Sum(wholes)
  {
    if parts != [] {
      var last := |parts| - 1;
      SumOfFractions(q, parts[..last], wholes[..last]);
      assert q * (Sum(wholes[..last]) + wholes[last]) == q * Sum(wholes[..last]) + q * wholes[last];
    }
  }

  lemma ShareOfFraction(criteria: seq<Criterion>, rating: Rating, q: real)
    requires forall criterion :: Carries(criteria, rating, criterion) ==>
               rating.rating == q * criterion.maxRating as real
    ensures Share(criteria, rating) == q * Weight(criteria, rating)
  {
    var counted := Counted(criteria, rating);
    if counted.Some? {
      CountedExactlyWhen(criteria, rating, counted.value);
      FractionOfScale(q, counted.value.maxRating as real, counted.value.weight);
    }
  }

  lemma Cancels(x: real, y: real, whole: real)
    requires whole > 0.0 && x * whole == y * whole
    ensures x == y
  {
    assert (x - y) * whole == 0.0;
  }

  lemma QuotientOfFraction(q: real, part: real, whole: real)
    requires whole > 0.0 && part == q * whole
    ensures Quotient(part, whole) == Some(q)
  {
    assert part / whole * whole == part;
    Cancels(part / whole, q, whole);
  }

  /** Every rating that carries weight is the same part of its criterion's scale. */
  ghost predicate SameFraction(criteria: seq<Criterion>, ratings: seq<Rating>, q: real) {
    forall i, criterion :: 0 <= i < |ratings| && Carries(criteria, ratings[i], criterion) ==>
      ratings[i].rating == q * criterion.maxRating as real
  }

  lemma SumsOfFraction(criteria: seq<Criterion>, ratings: seq<Rating>, q: real)
    requires SameFraction(criteria, ratings, q)
    ensures Sum(Shares(criteria, ratings)) == q * Sum(Weights(criteria, ratings))
  {
    var shares, weights := Shares(criteria, ratings), Weights(criteria, ratings);
    forall i | 0 <= i < |ratings| ensures shares[i] == q * weights[i] {
      ShareOfFraction(criteria, ratings[i], q);
    }
    SumOfFractions(q, shares, weights);
  }

  /**
   Ratings that are all the same part of their criteria's scales score that part: three of five
   and six of ten alike, and full marks score one.
   */
  lemma ScoreOfFraction(criteria: seq<Criterion>, ratings: seq<Rating>, q: real)
    requires Weighs(criteria, ratings) && SameFraction(criteria, ratings, q)
    ensures Score(criteria, ratings) == Some(q)
  {
    var part, whole := Sum(Shares(criteria, ratings)), Sum(Weights(criteria, ratings));
    assert whole > 0.0 by {
      ScoredExactlyWhen(criteria, ratings);
    }
    assert part == q * whole by {
      SumsOfFraction(criteria, ratings, q);
    }
    QuotientOfFraction(q, part, whole);
  }

  /** The weights of the criteria rated, one for each rating that carries weight. */
  ghost function TotalWeight(criteria: seq<Criterion>, ratings: seq<Rating>): real {
    if ratings == [] then 0.0
    else
      var rating := ratings[|ratings| - 1];
      TotalWeight(criteria, ratings[..|ratings| - 1])
      + if exists criterion :: Carries(criteria, rating, criterion)
        then (var criterion :| Carries(criteria, rating, criterion); criterion.weight) else 0.0
  }

  lemma {:induction false} TotalIsSum(criteria: seq<Criterion>, ratings: seq<Rating>)
    ensures TotalWeight(criteria, ratings) == Sum(Weights(criteria, ratings))
  {
    if ratings != [] {
      var last := |ratings| - 1;
      TotalIsSum(criteria, ratings[..last]);
      WeightIs(criteria, ratings[last]);
      assert Weights(criteria, ratings)[..last] == Weights(criteria, ratings[..last]);
    }
  }

  lemma {:induction false} SumJoins(one: seq<real>, two: seq<real>)
    ensures Sum(one + two) == Sum(one) + Sum(two)
  {
    if two == [] {
      assert one + two == one;
    } else {
      var last := |two| - 1;
      SumJoins(one, two[..last]);
      assert (one + two)[..|one + two| - 1] == one + two[..last];
    }
  }

  lemma QuotientTimes(part: real, whole: real)
    requires whole > 0.0
    ensures Quotient(part, whole).value * whole == part
  {
  }

  lemma SumsJoin(criteria: seq<Criterion>, one: seq<Rating>, two: seq<Rating>)
    ensures Sum(Shares(criteria, one + two)) == Sum(Shares(criteria, one)) + Sum(Shares(criteria, two))
    ensures Sum(Weights(criteria, one + two)) == Sum(Weights(criteria, one)) + Sum(Weights(criteria, two))
  {
    assert Shares(criteria, one + two) == Shares(criteria, one) + Shares(criteria, two);
    assert Weights(criteria, one + two) == Weights(criteria, one) + Weights(criteria, two);
    SumJoins(Shares(criteria, one), Shares(criteria, two));
    SumJoins(Weights(criteria, one), Weights(criteria, two));
  }

  /** The mean of two quotients, each with the weight of its whole. */
  ghost predicate IsMean(both: Option<real>, one: Option<real>, w1: real, two: Option<real>, w2: real) {
    && both.Some? && one.Some? && two.Some?
    && both.value * (w1 + w2) == one.value * w1 + two.value * w2
  }

  lemma MeanOfQuotients(p1: real, w1: real, p2: real, w2: real)
    requires w1 > 0.0 && w2 > 0.0
    ensures IsMean(Quotient(p1 + p2, w1 + w2), Quotient(p1, w1), w1, Quotient(p2, w2), w2)
  {
    QuotientTimes(p1, w1);
    QuotientTimes(p2, w2);
    QuotientTimes(p1 + p2, w1 + w2);
  }

  /** Two lists together score the mean of their scores, each with the weight of its criteria. */
  lemma ScoreOfBoth(criteria: seq<Criterion>, one: seq<Rating>, two: seq<Rating>)
    requires Weighs(criteria, one) && Weighs(criteria, two)
    ensures IsMean(Score(criteria, one + two), Score(criteria, one), TotalWeight(criteria, one),
                   Score(criteria, two), TotalWeight(criteria, two))
  {
    ScoredExactlyWhen(criteria, one);
    ScoredExactlyWhen(criteria, two);
    SumsJoin(criteria, one, two);
    TotalIsSum(criteria, one);
    TotalIsSum(criteria, two);
    MeanOfQuotients(Sum(Shares(criteria, one)), Sum(Weights(criteria, one)),
                    Sum(Shares(criteria, two)), Sum(Weights(criteria, two)));
  }

  lemma {:induction false} SumOfZeros(xs: seq<real>)
    requires forall i :: 0 <= i < |xs| ==> xs[i] == 0.0
    ensures Sum(xs) == 0.0
  {
    if xs != [] {
      SumOfZeros(xs[..|xs| - 1]);
    }
  }

  /** Ratings that carry no weight change nothing. */
  lemma ScoreWithout(criteria: seq<Criterion>, one: seq<Rating>, two: seq<Rating>)
    requires !Weighs(criteria, two)
    ensures Score(criteria, one + two) == Score(criteria, one) == Score(criteria, two + one)
  {
    forall i | 0 <= i < |two|
      ensures Shares(criteria, two)[i] == 0.0 && Weights(criteria, two)[i] == 0.0
    {
      assert forall criterion :: !Carries(criteria, two[i], criterion);
      WeightIs(criteria, two[i]);
      ShareOfFraction(criteria, two[i], 0.0);
    }
    SumOfZeros(Shares(criteria, two));
    SumOfZeros(Weights(criteria, two));
    SumsJoin(criteria, one, two);
    SumsJoin(criteria, two, one);
  }

  lemma ProperQuotient(part: real, whole: real)
    requires 0.0 < part <= whole
    ensures 0.0 < part / whole <= 1.0
  {
    assert part / whole * whole == part;
  }

  lemma ProperProduct(part: real, weight: real)
    requires 0.0 < part <= 1.0 && weight > 0.0
    ensures 0.0 < part * weight <= weight
  {
  }

  lemma WorthWithinWeight(criterion: Criterion, rating: real)
    requires criterion.weight > 0.0 && criterion.maxRating >= 1 && 1.0 <= rating <= criterion.maxRating as real
    ensures 0.0 < Worth(criterion, rating) <= criterion.weight
  {
    ProperQuotient(rating, criterion.maxRating as real);
    ProperProduct(rating / criterion.maxRating as real, criterion.weight);
  }

  lemma ShareWithinWeight(criteria: seq<Criterion>, rating: Rating)
    requires Find(criteria, rating.criterion).Some?
    requires InRange(Find(criteria, rating.criterion).value, rating.rating)
    ensures 0.0 <= Share(criteria, rating) <= Weight(criteria, rating)
    ensures Counted(criteria, rating).Some? <==> Share(criteria, rating) > 0.0
    ensures Counted(criteria, rating).Some? <==> Weight(criteria, rating) > 0.0
  {
    if Counted(criteria, rating).Some? {
      WorthWithinWeight(Counted(criteria, rating).value, rating.rating);
    }
  }

  /** Sums of terms that are positive together and otherwise both zero. */
  lemma {:induction false} SumsCompare(parts: seq<real>, wholes: seq<real>)
    requires |parts| == |wholes|
    requires forall i :: 0 <= i < |parts| ==> 0.0 <= parts[i] <= wholes[i] && (parts[i] > 0.0 <==> wholes[i] > 0.0)
    ensures 0.0 <= Sum(parts) <= Sum(wholes)
    ensures Sum(parts) > 0.0 <==> Sum(wholes) > 0.0
    ensures Sum(wholes) > 0.0 <==> exists i :: 0 <= i < |wholes| && wholes[i] > 0.0
  {
    if parts != [] {
      var last := |parts| - 1;
      SumsCompare(parts[..last], wholes[..last]);
      if i :| 0 <= i < |wholes| && wholes[i] > 0.0 {
        assert i < last ==> wholes[..last][i] == wholes[i];
      }
      if i :| 0 <= i < |wholes[..last]| && wholes[..last][i] > 0.0 {
        assert wholes[i] > 0.0;
      }
    }
  }

  lemma AcceptedTerms(criteria: seq<Criterion>, ratings: seq<Rating>, i: nat)
    requires Complete(criteria, ratings) && i < |ratings|
    ensures 0.0 <= Shares(criteria, ratings)[i] <= Weights(criteria, ratings)[i]
    ensures Shares(criteria, ratings)[i] > 0.0 <==> Weights(criteria, ratings)[i] > 0.0
    ensures Weights(criteria, ratings)[i] > 0.0 <==> Counted(criteria, ratings[i]).Some?
  {
    assert ProblemAt(criteria, ratings, i) == None;
    ShareWithinWeight(criteria, ratings[i]);
  }

  lemma SomeWeighs(criteria: seq<Criterion>, ratings: seq<Rating>)
    requires DistinctCriteria(criteria) && Complete(criteria, ratings)
    ensures (exists i :: 0 <= i < |ratings| && Counted(criteria, ratings[i]).Some?)
        <==> (exists k :: 0 <= k < |criteria| && criteria[k].weight > 0.0)
  {
    if k :| 0 <= k < |criteria| && criteria[k].weight > 0.0 {
      assert Rated(ratings, criteria[k].id);
      var i :| 0 <= i < |ratings| && ratings[i].criterion == criteria[k].id;
      assert ProblemAt(criteria, ratings, i) == None;
      FindUnique(criteria, k);
      assert Counted(criteria, ratings[i]).Some?;
    }
    if i :| 0 <= i < |ratings| && Counted(criteria, ratings[i]).Some? {
      FindFinds(criteria, ratings[i].criterion);
      var criterion := Counted(criteria, ratings[i]).value;
      var k :| 0 <= k < |criteria| && criteria[k] == criterion;
      assert criteria[k].weight > 0.0;
    }
  }

  /** An accepted scorecard has a score exactly when some criterion weighs, and then in (0, 1]. */
  lemma ScoreInUnitInterval(criteria: seq<Criterion>, ratings: seq<Rating>)
    requires DistinctCriteria(criteria) && Complete(criteria, ratings)
    ensures Score(criteria, ratings).Some? <==> exists k :: 0 <= k < |criteria| && criteria[k].weight > 0.0
    ensures Score(criteria, ratings).Some? ==> 0.0 < Score(criteria, ratings).value <= 1.0
  {
    var parts, wholes := Shares(criteria, ratings), Weights(criteria, ratings);
    forall i | 0 <= i < |ratings|
      ensures 0.0 <= parts[i] <= wholes[i] && (parts[i] > 0.0 <==> wholes[i] > 0.0)
      ensures wholes[i] > 0.0 <==> Counted(criteria, ratings[i]).Some?
    {
      AcceptedTerms(criteria, ratings, i);
    }
    SumsCompare(parts, wholes);
    SomeWeighs(criteria, ratings);
    if Sum(wholes) > 0.0 {
      ProperQuotient(Sum(parts), Sum(wholes));
    }
  }

  lemma {:induction false} SumWithout(xs: seq<real>, i: nat)
    requires i < |xs|
    ensures Sum(xs) == Sum(xs[..i] + xs[i + 1..]) + xs[i]
  {
    var last := |xs| - 1;
    var rest := xs[..i] + xs[i + 1..];
    if i == last {
      assert rest == xs[..last];
    } else {
      SumWithout(xs[..last], i);
      assert rest[..|rest| - 1] == xs[..last][..i] + xs[..last][i + 1..];
      assert rest[|rest| - 1] == xs[last];
    }
  }

  ghost function Terms(term: Rating -> real, ratings: seq<Rating>): seq<real> {
    seq(|ratings|, i requires 0 <= i < |ratings| => term(ratings[i]))
  }

  /** Where the first of one list sits in a permutation of it. */
  lemma Counterpart<T>(one: seq<T>, two: seq<T>) returns (i: nat)
    requires multiset(one) == multiset(two) && one != []
    ensures i < |two| && two[i] == one[0]
    ensures multiset(one[1..]) == multiset(two[..i] + two[i + 1..])
  {
    assert one == [one[0]] + one[1..];
    assert one[0] in multiset(two);
    i :| 0 <= i < |two| && two[i] == one[0];
    MultisetWithout(one, 0);
    assert one[..0] + one[1..] == one[1..];
    MultisetWithout(two, i);
  }

  lemma MultisetWithout<T>(items: seq<T>, i: nat)
    requires i < |items|
    ensures multiset(items[..i] + items[i + 1..]) == multiset(items) - multiset{items[i]}
  {
    assert items == items[..i] + ([items[i]] + items[i + 1..]);
    assert multiset([items[i]]) == multiset{items[i]};
  }

  lemma TermsWithout(term: Rating -> real, ratings: seq<Rating>, i: nat)
    requires i < |ratings|
    ensures Sum(Terms(term, ratings)) == Sum(Terms(term, ratings[..i] + ratings[i + 1..])) + term(ratings[i])
  {
    var terms := Terms(term, ratings);
    SumWithout(terms, i);
    assert Terms(term, ratings[..i] + ratings[i + 1..]) == terms[..i] + terms[i + 1..];
  }

  lemma {:induction false} SumIgnoresOrder(term: Rating -> real, one: seq<Rating>, two: seq<Rating>)
    requires multiset(one) == multiset(two)
    ensures Sum(Terms(term, one)) == Sum(Terms(term, two))
    decreases |one|
  {
    if one == [] {
      SameMultisetSameSize(one, two);
    } else {
      var i := Counterpart(one, two);
      var rest := two[..i] + two[i + 1..];
      SumIgnoresOrder(term, one[1..], rest);
      TermsWithout(term, two, i);
      FirstTerm(term, one);
    }
  }

  lemma SameMultisetSameSize<T>(one: seq<T>, two: seq<T>)
    requires multiset(one) == multiset(two)
    ensures |one| == |two|
  {
    assert |multiset(one)| == |one| && |multiset(two)| == |two|;
  }

  lemma FirstTerm(term: Rating -> real, ratings: seq<Rating>)
    requires ratings != []
    ensures Sum(Terms(term, ratings)) == Sum(Terms(term, ratings[1..])) + term(ratings[0])
  {
    TermsWithout(term, ratings, 0);
    assert ratings[..0] + ratings[1..] == ratings[1..];
  }

  /** The order ratings are listed in does not matter. */
  lemma ScoreIgnoresOrder(criteria: seq<Criterion>, one: seq<Rating>, two: seq<Rating>)
    requires multiset(one) == multiset(two)
    ensures Score(criteria, one) == Score(criteria, two)
  {
    var share, weight := rating => Share(criteria, rating), rating => Weight(criteria, rating);
    SumIgnoresOrder(share, one, two);
    SumIgnoresOrder(weight, one, two);
    assert Shares(criteria, one) == Terms(share, one) && Shares(criteria, two) == Terms(share, two);
    assert Weights(criteria, one) == Terms(weight, one) && Weights(criteria, two) == Terms(weight, two);
  }

  function Reweighted(criterion: Criterion, factor: real): Criterion {
    criterion.(weight := criterion.weight * factor)
  }

  function Scaled(criteria: seq<Criterion>, factor: real): seq<Criterion> {
    if criteria == [] then []
    else Scaled(criteria[..|criteria| - 1], factor) + [Reweighted(criteria[|criteria| - 1], factor)]
  }

  lemma {:induction false} FindScaled(criteria: seq<Criterion>, factor: real, id: CriterionId)
    ensures Find(Scaled(criteria, factor), id)
         == if Find(criteria, id).None? then None else Some(Reweighted(Find(criteria, id).value, factor))
  {
    if criteria != [] {
      var before := Scaled(criteria[..|criteria| - 1], factor);
      assert Scaled(criteria, factor)[..|before|] == before;
      FindScaled(criteria[..|criteria| - 1], factor, id);
    }
  }

  lemma WorthScaled(criterion: Criterion, rating: real, factor: real)
    requires criterion.maxRating >= 1
    ensures Worth(Reweighted(criterion, factor), rating) == Worth(criterion, rating) * factor
  {
    Associates(rating / criterion.maxRating as real, criterion.weight, factor);
  }

  lemma Associates(x: real, y: real, z: real)
    ensures x * (y * z) == x * y * z
  {
  }

  lemma SameSign(weight: real, factor: real)
    requires factor > 0.0
    ensures weight * factor > 0.0 <==> weight > 0.0
  {
  }

  lemma CountedScaled(criteria: seq<Criterion>, factor: real, rating: Rating)
    requires factor > 0.0
    ensures Counted(Scaled(criteria, factor), rating)
         == if Counted(criteria, rating).None? then None else Some(Reweighted(Counted(criteria, rating).value, factor))
  {
    FindScaled(criteria, factor, rating.criterion);
    if Find(criteria, rating.criterion).Some? {
      SameSign(Find(criteria, rating.criterion).value.weight, factor);
    }
  }

  /** Multiplying, with the product kept out of sight of the sums. */
  ghost predicate Multiplies(h: real -> real, factor: real) {
    factor > 0.0 && forall x :: h(x) == x * factor
  }

  lemma Multiplier(factor: real) returns (h: real -> real)
    requires factor > 0.0
    ensures Multiplies(h, factor)
  {
    h := x => x * factor;
  }

  lemma CommonFactor(part: real, whole: real, factor: real)
    requires whole > 0.0 && factor > 0.0
    ensures whole * factor > 0.0 && part * factor / (whole * factor) == part / whole
  {
    var ratio := part / whole;
    assert part == ratio * whole;
    assert part * factor == ratio * (whole * factor);
  }

  lemma QuotientScaled(part: real, whole: real, part': real, whole': real, factor: real)
    requires factor > 0.0 && part' == part * factor && whole' == whole * factor
    ensures Quotient(part', whole') == Quotient(part, whole)
  {
    SameSign(whole, factor);
    if whole > 0.0 {
      CommonFactor(part, whole, factor);
    }
  }

  lemma KeepsQuotient(h: real -> real, factor: real, part: real, whole: real)
    requires Multiplies(h, factor)
    ensures Quotient(h(part), h(whole)) == Quotient(part, whole)
  {
    QuotientScaled(part, whole, h(part), h(whole), factor);
  }

  lemma Distributes(h: real -> real, factor: real, x: real, y: real)
    requires Multiplies(h, factor)
    ensures h(x + y) == h(x) + h(y) && h(0.0) == 0.0
  {
    assert (x + y) * factor == x * factor + y * factor;
  }

  ghost predicate Mapped(h: real -> real, xs: seq<real>, ys: seq<real>) {
    |xs| == |ys| && forall i :: 0 <= i < |xs| ==> ys[i] == h(xs[i])
  }

  lemma {:induction false} SumMapped(h: real -> real, factor: real, xs: seq<real>, ys: seq<real>)
    requires Multiplies(h, factor) && Mapped(h, xs, ys)
    ensures Sum(ys) == h(Sum(xs))
  {
    if xs == [] {
      Distributes(h, factor, 0.0, 0.0);
    } else {
      var last := |xs| - 1;
      SumMapped(h, factor, xs[..last], ys[..last]);
      Distributes(h, factor, Sum(xs[..last]), xs[last]);
    }
  }

  lemma TermMapped(criteria: seq<Criterion>, factor: real, rating: Rating, h: real -> real)
    requires Multiplies(h, factor)
    ensures Share(Scaled(criteria, factor), rating) == h(Share(criteria, rating))
    ensures Weight(Scaled(criteria, factor), rating) == h(Weight(criteria, rating))
  {
    CountedScaled(criteria, factor, rating);
    if Counted(criteria, rating).Some? {
      WorthScaled(Counted(criteria, rating).value, rating.rating, factor);
    } else {
      Distributes(h, factor, 0.0, 0.0);
    }
  }

  lemma SumsScaled(criteria: seq<Criterion>, factor: real, ratings: seq<Rating>, h: real -> real)
    requires Multiplies(h, factor)
    ensures Sum(Shares(Scaled(criteria, factor), ratings)) == h(Sum(Shares(criteria, ratings)))
    ensures Sum(Weights(Scaled(criteria, factor), ratings)) == h(Sum(Weights(criteria, ratings)))
  {
    forall i | 0 <= i < |ratings|
      ensures Share(Scaled(criteria, factor), ratings[i]) == h(Share(criteria, ratings[i]))
      ensures Weight(Scaled(criteria, factor), ratings[i]) == h(Weight(criteria, ratings[i]))
    {
      TermMapped(criteria, factor, ratings[i], h);
    }
    SumMapped(h, factor, Shares(criteria, ratings), Shares(Scaled(criteria, factor), ratings));
    SumMapped(h, factor, Weights(criteria, ratings), Weights(Scaled(criteria, factor), ratings));
  }

  /** Only the proportions of the weights matter. */
  lemma ScoreIgnoresScale(criteria: seq<Criterion>, factor: real, ratings: seq<Rating>)
    requires factor > 0.0
    ensures Score(Scaled(criteria, factor), ratings) == Score(criteria, ratings)
  {
    var h := Multiplier(factor);
    SumsScaled(criteria, factor, ratings, h);
    KeepsQuotient(h, factor, Sum(Shares(criteria, ratings)), Sum(Weights(criteria, ratings)));
  }

  lemma SumReplaced(xs: seq<real>, i: nat, x: real)
    requires i < |xs|
    ensures Sum(xs[i := x]) == Sum(xs) - xs[i] + x
  {
    assert xs[i := x][..i] + xs[i := x][i + 1..] == xs[..i] + xs[i + 1..];
    SumWithout(xs, i);
    SumWithout(xs[i := x], i);
  }

  lemma ShareRaised(criteria: seq<Criterion>, rating: Rating, higher: real)
    requires rating.rating < higher
    ensures Weight(criteria, rating.(rating := higher)) == Weight(criteria, rating)
    ensures Counted(criteria, rating).Some? ==> Share(criteria, rating) < Share(criteria, rating.(rating := higher))
    ensures Counted(criteria, rating).None? ==> Share(criteria, rating) == Share(criteria, rating.(rating := higher))
  {
    if Counted(criteria, rating).Some? {
      WorthGrows(Counted(criteria, rating).value, rating.rating, higher);
    }
  }

  lemma WorthGrows(criterion: Criterion, low: real, high: real)
    requires low < high && criterion.maxRating >= 1 && criterion.weight > 0.0
    ensures Worth(criterion, low) < Worth(criterion, high)
  {
    var max := criterion.maxRating as real;
    QuotientGrows(low, high, max);
    ProductGrows(low / max, high / max, criterion.weight);
  }

  lemma ProductGrows(low: real, high: real, weight: real)
    requires low < high && weight > 0.0
    ensures low * weight < high * weight
  {
  }

  lemma QuotientGrows(low: real, high: real, whole: real)
    requires low < high && whole > 0.0
    ensures low / whole < high / whole
  {
    assert low / whole * whole == low;
    assert high / whole * whole == high;
  }

  /** Raising one rating raises the score if that rating counts, and otherwise leaves it. */
  lemma ScoreIsMonotone(criteria: seq<Criterion>, ratings: seq<Rating>, i: nat, higher: real)
    requires i < |ratings| && ratings[i].rating < higher
    requires Score(criteria, ratings).Some?
    ensures var raised := Score(criteria, ratings[i := ratings[i].(rating := higher)]);
            && raised.Some?
            && (Counted(criteria, ratings[i]).Some? ==> Score(criteria, ratings).value < raised.value)
            && (Counted(criteria, ratings[i]).None? ==> Score(criteria, ratings) == raised)
  {
    var rating := ratings[i].(rating := higher);
    var shares, weights := Shares(criteria, ratings), Weights(criteria, ratings);
    assert Shares(criteria, ratings[i := rating]) == shares[i := Share(criteria, rating)];
    assert Weights(criteria, ratings[i := rating]) == weights[i := Weight(criteria, rating)];
    SumReplaced(shares, i, Share(criteria, rating));
    SumReplaced(weights, i, Weight(criteria, rating));
    ShareRaised(criteria, ratings[i], higher);
    if Counted(criteria, ratings[i]).Some? {
      QuotientGrows(Sum(shares), Sum(shares) - Share(criteria, ratings[i]) + Share(criteria, rating), Sum(weights));
    }
  }
}
